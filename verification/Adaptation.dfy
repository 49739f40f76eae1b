/** A compiled cooling program in the closed loop: its intents are not refused, its beliefs stay
    true, and the supervisor never has to rescue the device from it. */
module Adaptation {
  import opened Names
  import opened Manifests
  import opened Registries
  import opened Programs
  import opened Worlds
  import opened Supervisors
  import opened Runtime
  import opened RuntimeProofs
  import opened Harness
  import CompilerProofs
  import Compiler

  // ----- What the closed loop needs of a program -----

  /** A rule that beats on every step. */
  predicate BeatRule(rule: Rule) {
    rule.condition.None? && |rule.emit| == 1 && rule.emit[0].event == Some(Heartbeat)
    && rule.emit[0].kind.TelemetryIntent?
  }

  ghost predicate Beats(p: Program) {
    EmitHeartbeat in p.CapabilitiesUsed() ==> exists i :: 0 <= i < |p.rules| && BeatRule(p.rules[i])
  }

  predicate AcceptableRules(setup: Setup, p: Program) {
    forall i, s :: 0 <= i < |p.rules| && s in p.rules[i].emit ==>
      CompilerProofs.StaticallyFine(setup, s) && s.capability in p.CapabilitiesUsed()
  }

  /** The rate ceiling of the two fan capabilities. */
  predicate FanCeiling(setup: Setup, p: Program, ceiling: int)
    requires Paired(p)
  {
    forall i :: 0 <= i < 2 ==>
      var c := p.rules[i].emit[0].capability;
      c in setup.registry.capabilities && TransitionCeiling(setup.registry.capabilities[c]) == ceiling
  }

  /** Everything the closed loop relies on; `CompiledIsReady` establishes it for compiled manifests. */
  ghost predicate Ready(setup: Setup, p: Program, activation: Trigger, recovery: Trigger, ceiling: int) {
    && setup.Valid()
    && setup.registry.actuators.Keys == {Fan}
    && setup.policy.heartbeatMissLimit >= 1
    && IsCooling(p, activation, recovery, false)
    && Disjoint(activation, recovery)
    && AcceptableRules(setup, p)
    && Beats(p)
    && FanCeiling(setup, p, ceiling)
    && Fan in DrivenActuators(setup, p.CapabilitiesUsed())
  }

  lemma FineIsAcceptable(setup: Setup, p: Program)
    requires CompilerProofs.EmitsPresentably(setup, p)
    ensures AcceptableRules(setup, p)
  {
    forall i, s | 0 <= i < |p.rules| && s in p.rules[i].emit
      ensures CompilerProofs.StaticallyFine(setup, s) && s.capability in p.CapabilitiesUsed()
    {
      assert p.Emits(s);
    }
  }

  lemma FanIsDriven(setup: Setup, p: Program, ceiling: int)
    requires WellFormed(setup.registry, setup.schema) && AcceptableRules(setup, p) && Paired(p)
    requires p.rules[0].emit[0].capability == FanOn && p.rules[1].emit[0].capability == FanOff
    requires forall c :: c in setup.registry.capabilities && c in {FanOn, FanOff} ==>
      TransitionCeiling(setup.registry.capabilities[c]) == ceiling
    ensures Fan in DrivenActuators(setup, p.CapabilitiesUsed())
    ensures FanCeiling(setup, p, ceiling)
  {
    var on, off := p.rules[0].emit[0], p.rules[1].emit[0];
    assert on in p.rules[0].emit && off in p.rules[1].emit;
    assert CompilerProofs.StaticallyFine(setup, on) && CompilerProofs.StaticallyFine(setup, off);
    assert EntryAgrees(setup.registry.capabilities[FanOn], setup.registry, setup.schema);
    assert Drives(setup.registry, FanOn, On);
  }

  lemma {:induction false} CompiledIsReady(hash: Manifest -> Hash, m: Manifest, setup: Setup, p: Program, ceiling: int)
    requires WellFormed(setup.registry, setup.schema)
    requires CompilerProofs.OnlyTemperatureIsProduced(setup.registry)
    requires CompilerProofs.CompilesToCooling(hash, m, setup.registry, setup.schema, p)
    requires setup.policy.heartbeatMissLimit >= 1
    requires forall c :: c in setup.registry.capabilities && c in {FanOn, FanOff} ==>
      TransitionCeiling(setup.registry.capabilities[c]) == ceiling
    ensures Ready(setup, p, m.activation, m.recovery, ceiling)
  {
    CompilerProofs.ThermalPatternIsCooling(hash, m, setup.registry, setup.schema, p);
    CompilerProofs.DisjointEndToEnd(hash, m, setup.registry, setup.schema, p);
    CompilerProofs.CompiledEmitsPresentably(hash, m, setup, p);
    FineIsAcceptable(setup, p);
    CompiledBeats(hash, m, setup, p);
    FanIsDriven(setup, p, ceiling);
  }

  lemma CompiledBeats(hash: Manifest -> Hash, m: Manifest, setup: Setup, p: Program)
    requires WellFormed(setup.registry, setup.schema)
    requires CompilerProofs.CompilesToCooling(hash, m, setup.registry, setup.schema, p)
    ensures Beats(p)
  {
    var registry, schema := setup.registry, setup.schema;
    CompilerProofs.CompiledFrom(hash, m, registry, schema, p);
    if EmitHeartbeat in p.CapabilitiesUsed() {
      CompilerProofs.CapabilitiesAreRequested(hash, m, registry, schema, p, EmitHeartbeat);
      var intents := CompilerProofs.IntentsOf(m, registry);
      assert EmitHeartbeat in Compiler.Needed(p.pattern, m);
      CompilerProofs.ReportSpecs(m, registry, schema, EmitHeartbeat, intents[EmitHeartbeat]);
      var rule := Rule(RHeartbeat, None, [intents[EmitHeartbeat]]);
      assert Compiler.HeartbeatRule(m, intents) == [rule];
      assert p.rules[|p.rules| - 1] == rule;
      assert BeatRule(p.rules[|p.rules| - 1]);
    }
  }

  // ----- Reports pass through the supervisor -----

  predicate Reports(setup: Setup, allowed: set<Capability>, intents: seq<Intent>) {
    forall k :: 0 <= k < |intents| ==>
      && intents[k].spec.kind.TelemetryIntent?
      && CompilerProofs.StaticallyFine(setup, intents[k].spec)
      && intents[k].spec.capability in allowed
  }

  lemma {:induction false} ReportsAreAccepted(setup: Setup, p: Plant, intents: seq<Intent>, time: real)
    requires p.sup.state.Normal? && Reports(setup, p.sup.allowed, intents)
    ensures var q := ApplyIntents(setup, p, intents, time);
      && q == p.(sup := p.sup.(sinceHeartbeat := q.sup.sinceHeartbeat))
      && (q.sup.sinceHeartbeat == 0 || q.sup.sinceHeartbeat == p.sup.sinceHeartbeat)
      && ((exists k :: 0 <= k < |intents| && intents[k].spec.event == Some(Heartbeat)) ==> q.sup.sinceHeartbeat == 0)
    ensures forall k :: 0 <= k < |Verdicts(setup, p, intents, time)| ==>
      Verdicts(setup, p, intents, time)[k].TelemetryEmitted?
    decreases |intents|
  {
    if intents != [] {
      CompilerProofs.OnlyDynamicRejections(setup, p, intents[0], time);
      var q := Consider(setup, p, intents[0], time);
      assert forall k :: 0 <= k < |intents[1..]| ==> intents[1..][k] == intents[k + 1];
      ReportsAreAccepted(setup, q, intents[1..], time);
    }
  }

  /** A rule that holds and reports puts its report among the intents. */
  lemma {:induction false} HoldingRuleReports(c: Controller, rules: seq<Rule>, i: nat, o: Observation)
    returns (k: nat)
    requires i < |rules| && Holds(rules[i].condition, o.metrics)
    requires |rules[i].emit| == 1 && !rules[i].emit[0].Commands()
    ensures k < |RunRules(c, rules, o).intents| && RunRules(c, rules, o).intents[k].spec == rules[i].emit[0]
    decreases |rules|
  {
    FirstRule(c, rules, o);
    var first := FireOne(c, rules[0], o);
    if i == 0 {
      assert rules[0].emit[1..] == [];
      k := 0;
    } else {
      var j := HoldingRuleReports(first.after, rules[1..], i - 1, o);
      k := |first.intents| + j;
    }
  }

  // ----- One quiet tick -----

  /** The loop is undisturbed: normal operation, no emergency, and what the controller believes of
      the fan is true. */
  ghost predicate Steady(setup: Setup, rig: Rig, p: Program) {
    var sup := rig.plant.sup;
    && sup.state.Normal? && !sup.emergency && sup.sinceHeartbeat == 0 && sup.allowed == p.CapabilitiesUsed()
    && rig.controller.program == p && rig.controller.startedAt.Some?
    && Fan in rig.controller.commanded
    && rig.controller.commanded[Fan] == rig.plant.world.actuators[Fan]
    && (Fan in rig.controller.lastTransition ==> rig.controller.lastTransition[Fan] <= rig.plant.world.tick)
  }

  /** The tick ahead is inside the lease and its reading below the emergency threshold. */
  predicate QuietAhead(setup: Setup, rig: Rig, draw: Draw)
    requires rig.controller.startedAt.Some?
  {
    var w := StepWorld(rig.plant.world, draw);
    !Elapsed(rig.controller, w.time) && Reading(w) < setup.policy.emergencyC
  }

  /** The plant as the controller finds it on such a tick: only time and physics have moved. */
  function Arrived(rig: Rig, draw: Draw): Plant {
    Plant(StepWorld(rig.plant.world, draw), rig.plant.sup)
  }

  function Told(rig: Rig, activation: Trigger, recovery: Trigger, draw: Draw): (Switch, Option<Level>) {
    Flip(SwitchOf(rig.controller), activation, recovery, rig.controller.program.minHoldTicks,
         Observe(StepWorld(rig.plant.world, draw)))
  }

  /** Room left in the budget for one more transition of the fan at a time. */
  predicate Room(setup: Setup, log: seq<Entry>, time: real, ceiling: int) {
    RecentTransitions(log, Fan, time - setup.policy.windowSeconds) < ceiling
  }

  lemma QuietPolicy(setup: Setup, rig: Rig, p: Program, activation: Trigger, recovery: Trigger, ceiling: int,
                    draw: Draw)
    requires Ready(setup, p, activation, recovery, ceiling) && Steady(setup, rig, p) && QuietAhead(setup, rig, draw)
    ensures var q := PolicyPhase(setup, rig.plant, draw);
      && q.world == StepWorld(rig.plant.world, draw)
      && q.sup == rig.plant.sup.(sinceHeartbeat := q.sup.sinceHeartbeat)
      && (EmitHeartbeat !in p.CapabilitiesUsed() ==> q.sup.sinceHeartbeat == 0)
  {
    var w := StepWorld(rig.plant.world, draw);
    var start := Plant(w, rig.plant.sup);
    assert Emergency(setup, start, MetricsOf(w), w.time) == start;
    OwnedActuatorsAreLeft(setup, start, setup.registry.actuatorOrder,
                          DrivenActuators(setup, rig.plant.sup.allowed), w.time);
  }

  lemma {:induction false} OwnedActuatorsAreLeft(setup: Setup, p: Plant, names: seq<Actuator>, driven: set<Actuator>,
                                                 time: real)
    requires forall i :: 0 <= i < |names| ==> names[i] in setup.registry.actuators
    requires forall i :: 0 <= i < |names| ==> names[i] in driven
    ensures ReleaseAll(setup, p, names, driven, time) == p
    decreases |names|
  {
    if names != [] {
      OwnedActuatorsAreLeft(setup, p, names[1..], driven, time);
    }
  }

  lemma IntentsAreAcceptable(setup: Setup, c: Controller, o: Observation)
    requires AcceptableRules(setup, c.program)
    requires c.startedAt.Some? && !OverBudget(c.program) && !Elapsed(c, o.time)
    ensures forall k :: 0 <= k < |Step(c, o).emission.intents| ==>
      var s := Step(c, o).emission.intents[k].spec;
      CompilerProofs.StaticallyFine(setup, s) && s.capability in c.program.CapabilitiesUsed()
  {
    RulesStampTicks(Counted(c), c.program.rules, o);
  }

  predicate IsBeat(intent: Intent) {
    intent.spec.event == Some(Heartbeat) && intent.spec.kind.TelemetryIntent?
  }

  lemma BeatIsSent(c: Controller, o: Observation) returns (k: nat)
    requires Beats(c.program) && EmitHeartbeat in c.program.CapabilitiesUsed()
    requires c.startedAt.Some? && !OverBudget(c.program) && !Elapsed(c, o.time)
    ensures k < |Step(c, o).emission.intents| && IsBeat(Step(c, o).emission.intents[k])
  {
    var i :| 0 <= i < |c.program.rules| && BeatRule(c.program.rules[i]);
    k := HoldingRuleReports(Counted(c), c.program.rules, i, o);
  }

  /** One acceptable command for the fan: applied exactly when the budget has room. */
  lemma CommandIsWeighed(setup: Setup, q: Plant, intent: Intent, level: Level, time: real, ceiling: int)
    requires CompilerProofs.StaticallyFine(setup, intent.spec) && intent.spec.capability in q.sup.allowed
    requires FanSpec(intent.spec, level) && q.world.actuators[Fan] != level
    requires TransitionCeiling(setup.registry.capabilities[intent.spec.capability]) == ceiling
    requires q.sup.state.Normal? && !q.sup.emergency
    ensures Room(setup, q.sup.log, time, ceiling) ==>
      && VerdictOn(setup, q, intent, time) == Applied
      && Consider(setup, q, intent, time)
           == Plant(SetActuator(q.world, Fan, level), q.sup.(log := q.sup.log + [Entry(time, Fan, true)]))
    ensures !Room(setup, q.sup.log, time, ceiling) ==>
      && VerdictOn(setup, q, intent, time) == RejectedTransitionBudget
      && Consider(setup, q, intent, time) == q
  {
    CompilerProofs.OnlyDynamicRejections(setup, q, intent, time);
  }

  /** What a quiet tick does to the plant, given what the switch tells the fan. */
  function Obeyed(setup: Setup, q: Plant, told: Option<Level>, ceiling: int): Plant {
    if told.Some? && Room(setup, q.sup.log, q.world.time, ceiling) then
      Plant(SetActuator(q.world, Fan, told.value),
            q.sup.(sinceHeartbeat := 0, log := q.sup.log + [Entry(q.world.time, Fan, true)]))
    else q.(sup := q.sup.(sinceHeartbeat := 0))
  }

  /** One command and then reports, all acceptable: the plant obeys, and the only possible refusal is
      for the budget. */
  lemma {:induction false} CommandThenReports(setup: Setup, q: Plant, p: Program, intents: seq<Intent>,
                                              told: Option<Level>, tick: int, ceiling: int)
    requires Paired(p) && FanCeiling(setup, p, ceiling)
    requires q.sup.state.Normal? && !q.sup.emergency && q.sup.allowed == p.CapabilitiesUsed()
    requires OneCommandThenReports(intents, told, p, false, tick)
    requires forall k :: 0 <= k < |intents| ==>
      CompilerProofs.StaticallyFine(setup, intents[k].spec) && intents[k].spec.capability in p.CapabilitiesUsed()
    requires told.Some? ==> told.value != q.world.actuators[Fan]
    requires q.sup.sinceHeartbeat == 0
          || exists k :: 0 <= k < |intents| && IsBeat(intents[k])
    ensures ApplyIntents(setup, q, intents, q.world.time) == Obeyed(setup, q, told, ceiling)
    ensures RejectedTransitionBudget in Verdicts(setup, q, intents, q.world.time)
      <==> told.Some? && !Room(setup, q.sup.log, q.world.time, ceiling)
  {
    var time := q.world.time;
    if told.None? {
      ReportsAreAccepted(setup, q, intents, time);
    } else {
      CommandIsWeighed(setup, q, intents[0], told.value, time, ceiling);
      var next, tail := Consider(setup, q, intents[0], time), intents[1..];
      assert forall k :: 0 <= k < |tail| ==> tail[k] == intents[k + 1];
      ReportsAreAccepted(setup, next, tail, time);
      if k :| 0 <= k < |intents| && IsBeat(intents[k]) {
        assert tail[k - 1].spec.event == Some(Heartbeat);
      }
      assert Verdicts(setup, q, intents, time)
          == [VerdictOn(setup, q, intents[0], time)] + Verdicts(setup, next, tail, time);
    }
  }

  /** A quiet control phase: the controller steps its switch, and the plant obeys. */
  lemma QuietIntents(setup: Setup, q: Plant, c: Controller, activation: Trigger, recovery: Trigger, ceiling: int)
    requires Ready(setup, c.program, activation, recovery, ceiling)
    requires q.sup.state.Normal? && !q.sup.emergency && q.sup.allowed == c.program.CapabilitiesUsed()
    requires EmitHeartbeat !in q.sup.allowed ==> q.sup.sinceHeartbeat == 0
    requires c.startedAt.Some? && !Elapsed(c, q.world.time)
    requires Fan in c.commanded && c.commanded[Fan] == q.world.actuators[Fan]
    ensures Step(c, Observe(q.world)).Stepped?
    ensures var e := Step(c, Observe(q.world)).emission;
      var told := Flip(SwitchOf(c), activation, recovery, c.program.minHoldTicks, Observe(q.world)).1;
      && ApplyIntents(setup, q, e.intents, q.world.time) == Obeyed(setup, q, told, ceiling)
      && (RejectedTransitionBudget in Verdicts(setup, q, e.intents, q.world.time)
          <==> told.Some? && !Room(setup, q.sup.log, q.world.time, ceiling))
  {
    var o := Observe(q.world);
    CoolingStep(c, activation, recovery, false, o);
    IntentsAreAcceptable(setup, c, o);
    if EmitHeartbeat in q.sup.allowed {
      var k := BeatIsSent(c, o);
    }
    var told := Flip(SwitchOf(c), activation, recovery, c.program.minHoldTicks, o).1;
    CommandThenReports(setup, q, c.program, Step(c, o).emission.intents, told, o.tick, ceiling);
  }

  /** What an undisturbed tick makes of a rig: the physics moves, the controller steps its switch and
      the plant obeys; a refusal can only be for the budget, and only then is the loop disturbed. */
  ghost predicate QuietStep(setup: Setup, rig: Rig, draw: Draw, activation: Trigger, recovery: Trigger, ceiling: int,
                            after: Rig, refused: bool)
  {
    var p := rig.controller.program;
    var w := StepWorld(rig.plant.world, draw);
    var (next, told) := Told(rig, activation, recovery, draw);
    var room := Room(setup, rig.plant.sup.log, w.time, ceiling);
    && after.plant == Obeyed(setup, Arrived(rig, draw), told, ceiling)
    && after.controller.startedAt == rig.controller.startedAt && after.controller.program == p
    && SwitchOf(after.controller) == next
    && (refused <==> told.Some? && !room)
    && (refused ==> Fan in after.controller.commanded
                    && after.controller.commanded[Fan] != after.plant.world.actuators[Fan])
    && (!refused ==> Steady(setup, after, p))
  }

  predicate RefusedForBudget(setup: Setup, rig: Rig, draw: Draw)
    requires setup.Valid()
  {
    RejectedTransitionBudget in LoopPhase(setup, rig, draw, false).verdicts
  }

  /** The control phase on a plant the policy has left alone. */
  lemma QuietControl(setup: Setup, q: Plant, c: Controller, p: Program, activation: Trigger, recovery: Trigger,
                     ceiling: int)
    requires Ready(setup, p, activation, recovery, ceiling) && c.program == p
    requires q.sup.state.Normal? && !q.sup.emergency && q.sup.allowed == c.program.CapabilitiesUsed()
    requires EmitHeartbeat !in q.sup.allowed ==> q.sup.sinceHeartbeat == 0
    requires c.startedAt.Some? && !Elapsed(c, q.world.time)
    requires Fan in c.commanded && c.commanded[Fan] == q.world.actuators[Fan]
    ensures var phase := ControlPhase(setup, q, c, false);
      var (next, told) := Flip(SwitchOf(c), activation, recovery, c.program.minHoldTicks, Observe(q.world));
      && phase.plant == Obeyed(setup, q, told, ceiling)
      && phase.controller.startedAt == c.startedAt && phase.controller.program == c.program
      && SwitchOf(phase.controller) == next
      && (RejectedTransitionBudget in phase.verdicts <==>
            told.Some? && !Room(setup, q.sup.log, q.world.time, ceiling))
  {
    QuietIntents(setup, q, c, activation, recovery, ceiling);
    CoolingStep(c, activation, recovery, false, Observe(q.world));
  }

  lemma QuietCompose(setup: Setup, rig: Rig, p: Program, activation: Trigger, recovery: Trigger, ceiling: int,
                     draw: Draw, q: Plant, phase: Phase)
    requires Steady(setup, rig, p)
    requires q.world == StepWorld(rig.plant.world, draw)
    requires q.sup == rig.plant.sup.(sinceHeartbeat := q.sup.sinceHeartbeat)
    requires var (next, told) := Told(rig, activation, recovery, draw);
      && phase.plant == Obeyed(setup, q, told, ceiling)
      && phase.controller.startedAt == rig.controller.startedAt && phase.controller.program == p
      && SwitchOf(phase.controller) == next
      && (RejectedTransitionBudget in phase.verdicts <==> told.Some? && !Room(setup, q.sup.log, q.world.time, ceiling))
    ensures QuietStep(setup, rig, draw, activation, recovery, ceiling, Rig(phase.plant, phase.controller),
                      RejectedTransitionBudget in phase.verdicts)
  {
  }

  lemma QuietTick(setup: Setup, rig: Rig, p: Program, activation: Trigger, recovery: Trigger, ceiling: int, draw: Draw)
    requires Ready(setup, p, activation, recovery, ceiling) && Steady(setup, rig, p) && QuietAhead(setup, rig, draw)
    ensures QuietStep(setup, rig, draw, activation, recovery, ceiling, LoopTick(setup, rig, draw, false),
                      RefusedForBudget(setup, rig, draw))
  {
    var q := PolicyPhase(setup, rig.plant, draw);
    QuietPolicy(setup, rig, p, activation, recovery, ceiling, draw);
    QuietControl(setup, q, rig.controller, p, activation, recovery, ceiling);
    QuietCompose(setup, rig, p, activation, recovery, ceiling, draw, q, ControlPhase(setup, q, rig.controller, false));
  }
}
