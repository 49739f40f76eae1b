/** Theorems across validator, compiler, runtime and supervisor. */
module CompilerProofs {
  import opened Names
  import opened Arithmetic
  import opened Manifests
  import opened Registries
  import opened Programs
  import opened Costs
  import opened Compiler
  import opened Validator
  import Runtime
  import R = RuntimeProofs
  import S = Supervisors

  /** Validated, compiled, and compiled under the thermal cooling pattern. */
  ghost predicate CompilesToCooling(hash: Manifest -> Hash, m: Manifest, registry: Registry, schema: Schema,
                                    p: Program)
  {
    && m.WellFormed()
    && Valid(m, registry, schema)
    && Compile(hash, m, registry, schema) == Ok(p)
    && p.pattern.ThermalCooling?
  }

  // ----- What the compiler built, capability by capability -----

  lemma {:induction false} FragmentsAreFaithful(names: seq<Capability>, m: Manifest, registry: Registry)
    requires forall n :: n in names ==> n in registry.capabilities
    requires FragmentsOf(names, m, registry).Ok?
    ensures forall c :: c in FragmentsOf(names, m, registry).value.intents ==>
      && c in names
      && BuildFragment(c, registry.capabilities[c], m)
           == Ok(IntentFragment(FragmentsOf(names, m, registry).value.intents[c]))
    ensures forall i :: 0 <= i < |FragmentsOf(names, m, registry).value.sensors| ==>
      FragmentsOf(names, m, registry).value.sensors[i].capability in names
  {
    if names != [] {
      FragmentsAreFaithful(names[..|names| - 1], m, registry);
    }
  }

  /** The intents a successful compilation drew on. */
  ghost function IntentsOf(m: Manifest, registry: Registry): map<Capability, IntentSpec>
    requires forall n :: n in m.requested ==> n in registry.capabilities
  {
    SortedKeepsElements(m.requested);
    var built := FragmentsOf(Sorted(m.requested), m, registry);
    if built.Ok? then built.value.intents else map[]
  }

  lemma Assembled(h: Hash, m: Manifest, registry: Registry, pattern: PatternId, fs: Fragments, p: Program)
    requires m.controlPeriodSeconds > 0.0
    requires Assemble(h, m, registry, pattern, fs) == Ok(p)
    ensures p.pattern == pattern && Needed(pattern, m) <= fs.intents.Keys
    ensures p.rules == RulesOf(pattern, m, fs.intents)
    ensures p.fallback == FallbackOf(m, fs.intents)
    ensures p.budget == BudgetOf(m, registry) && p.minHoldTicks == MinHoldTicks(m, registry)
    ensures p.sensors == fs.sensors && p.maximumDurationSeconds == m.maximumDurationSeconds
    ensures p.deviceId == m.deviceId
  {
  }

  lemma PinsAreChecked(p: Program, q: Program, schema: Schema)
    requires CheckPins(p, schema) == Ok(q)
    ensures p == q && forall pin :: pin in p.PinsUsed() ==> pin in schema.pinout && !schema.Forbids(pin)
  {
  }

  lemma CompiledFrom(hash: Manifest -> Hash, m: Manifest, registry: Registry, schema: Schema, p: Program)
    requires m.controlPeriodSeconds > 0.0
    requires Compile(hash, m, registry, schema) == Ok(p)
    ensures forall n :: n in m.requested ==> n in registry.capabilities
    ensures Needed(p.pattern, m) <= IntentsOf(m, registry).Keys
    ensures p.rules == RulesOf(p.pattern, m, IntentsOf(m, registry))
    ensures p.fallback == FallbackOf(m, IntentsOf(m, registry))
    ensures p.budget == BudgetOf(m, registry) && p.minHoldTicks == MinHoldTicks(m, registry)
    ensures p.maximumDurationSeconds == m.maximumDurationSeconds && p.deviceId == m.deviceId
    ensures Covers(p.pattern, set n | n in m.requested)
    ensures forall c :: c in IntentsOf(m, registry) ==>
      c in m.requested && BuildFragment(c, registry.capabilities[c], m) == Ok(IntentFragment(IntentsOf(m, registry)[c]))
    ensures forall i :: 0 <= i < |p.sensors| ==> p.sensors[i].capability in m.requested
    ensures forall pin :: pin in p.PinsUsed() ==> pin in schema.pinout && !schema.Forbids(pin)
  {
    SortedKeepsElements(m.requested);
    FragmentsAreFaithful(Sorted(m.requested), m, registry);
    var fs := FragmentsOf(Sorted(m.requested), m, registry).value;
    var pattern := SelectPattern(set n | n in m.requested).value;
    var program := Assemble(hash(m), m, registry, pattern, fs).value;
    Assembled(hash(m), m, registry, pattern, fs, program);
    PinsAreChecked(program, p, schema);
  }

  /** An intent looked up in the table under its own capability. */
  predicate Drawn(spec: IntentSpec, intents: map<Capability, IntentSpec>) {
    spec.capability in intents && intents[spec.capability] == spec
  }

  predicate DrawnRules(rules: seq<Rule>, intents: map<Capability, IntentSpec>) {
    forall i :: 0 <= i < |rules| ==> |rules[i].emit| == 1 && Drawn(rules[i].emit[0], intents)
  }

  lemma RulesAreDrawn(p: PatternId, m: Manifest, intents: map<Capability, IntentSpec>)
    requires Needed(p, m) <= intents.Keys
    requires forall c :: c in intents ==> intents[c].capability == c
    ensures DrawnRules(RulesOf(p, m, intents), intents)
  {
    if !p.SafeIdlePattern? {
      assert DrawnRules(CriticalRule(m, intents), intents);
      assert DrawnRules(ContextRule(m, intents), intents);
    }
    assert DrawnRules(HeartbeatRule(m, intents), intents);
  }

  lemma OwnCapability(c: Capability, config: CapabilityEntry, m: Manifest, spec: IntentSpec)
    requires BuildFragment(c, config, m) == Ok(IntentFragment(spec))
    ensures spec.capability == c
  {
  }

  lemma EmittedIsDrawn(p: Program, m: Manifest, intents: map<Capability, IntentSpec>, spec: IntentSpec)
    requires Needed(p.pattern, m) <= intents.Keys && (forall c :: c in intents ==> intents[c].capability == c)
    requires DrawnRules(p.rules, intents) && p.fallback == FallbackOf(m, intents) && p.Emits(spec)
    ensures Drawn(spec, intents)
  {
  }

  lemma SpecIsBuilt(p: Program, m: Manifest, registry: Registry, intents: map<Capability, IntentSpec>,
                    spec: IntentSpec)
    requires forall n :: n in m.requested ==> n in registry.capabilities
    requires Needed(p.pattern, m) <= intents.Keys
    requires p.rules == RulesOf(p.pattern, m, intents) && p.fallback == FallbackOf(m, intents)
    requires forall c :: c in intents ==>
      c in m.requested && BuildFragment(c, registry.capabilities[c], m) == Ok(IntentFragment(intents[c]))
    requires p.Emits(spec)
    ensures spec.capability in m.requested && spec.capability in registry.capabilities
    ensures BuildFragment(spec.capability, registry.capabilities[spec.capability], m) == Ok(IntentFragment(spec))
  {
    forall c | c in intents ensures intents[c].capability == c {
      OwnCapability(c, registry.capabilities[c], m, intents[c]);
    }
    RulesAreDrawn(p.pattern, m, intents);
    EmittedIsDrawn(p, m, intents, spec);
  }

  /** Everything a compiled program can emit was built from the requested capability it names. */
  lemma EmittedSpecIsBuilt(hash: Manifest -> Hash, m: Manifest, registry: Registry, schema: Schema, p: Program,
                           spec: IntentSpec)
    requires m.controlPeriodSeconds > 0.0
    requires Compile(hash, m, registry, schema) == Ok(p) && p.Emits(spec)
    ensures spec.capability in m.requested && spec.capability in registry.capabilities
    ensures BuildFragment(spec.capability, registry.capabilities[spec.capability], m) == Ok(IntentFragment(spec))
  {
    CompiledFrom(hash, m, registry, schema, p);
    SpecIsBuilt(p, m, registry, IntentsOf(m, registry), spec);
  }

  /** Whatever a program uses is a sensor of it or can be emitted by it. */
  lemma UsedIsSensedOrEmitted(p: Program, c: Capability)
    requires c in p.CapabilitiesUsed()
    ensures (exists i :: 0 <= i < |p.sensors| && p.sensors[i].capability == c)
         || (exists s :: p.Emits(s) && s.capability == c)
  {
    if b :| b in p.sensors && b.capability == c {
      var i :| 0 <= i < |p.sensors| && p.sensors[i] == b;
      assert p.sensors[i].capability == c;
    } else if s :| s in p.fallback && s.capability == c {
      assert p.Emits(s);
    } else {
      var r, s :| r in p.rules && s in r.emit && s.capability == c;
      var i :| 0 <= i < |p.rules| && p.rules[i] == r;
      assert p.Emits(s);
    }
  }

  /** A program uses no capability its manifest did not request. */
  lemma CapabilitiesAreRequested(hash: Manifest -> Hash, m: Manifest, registry: Registry, schema: Schema, p: Program,
                                 c: Capability)
    requires m.controlPeriodSeconds > 0.0
    requires Compile(hash, m, registry, schema) == Ok(p) && c in p.CapabilitiesUsed()
    ensures c in m.requested
  {
    CompiledFrom(hash, m, registry, schema, p);
    UsedIsSensedOrEmitted(p, c);
    if s :| p.Emits(s) && s.capability == c {
      EmittedSpecIsBuilt(hash, m, registry, schema, p, s);
    }
  }

  // ----- Static checks -----

  /** An intent no static check of the supervisor can refuse. */
  predicate StaticallyFine(setup: S.Setup, spec: IntentSpec) {
    && spec.capability in setup.registry.capabilities
    && S.SameKind(setup.registry.capabilities[spec.capability].kind, spec.kind)
    && (spec.kind.ActuatorIntent? ==>
          && spec.actuator == Some(Fan)
          && Fan in setup.registry.actuators
          && spec.level.Some? && spec.level.value in setup.registry.actuators[Fan].levels
          && spec.pin.Some?
          && spec.pin.value in setup.registry.capabilities[spec.capability].permittedPins
          && spec.pin.value in setup.schema.pinout && !setup.schema.Forbids(spec.pin.value)
          && setup.schema.pinout[spec.pin.value] == setup.registry.actuators[Fan].connectedDevice
          && (setup.schema.maxCurrentMa.Some? ==>
                spec.currentMa.Some? && spec.currentMa.value <= setup.schema.maxCurrentMa.value))
  }

  /** For such an intent the verdict is decided by three dynamic facts and nothing else: the safe
      state, the emergency policy, and the transition budget. */
  lemma OnlyDynamicRejections(setup: S.Setup, p: S.Plant, intent: Intent, time: real)
    requires StaticallyFine(setup, intent.spec) && intent.spec.capability in p.sup.allowed
    ensures var spec := intent.spec;
      S.VerdictOn(setup, p, intent, time) ==
        if p.sup.state.SafeState? then S.RejectedSafeState
        else if spec.kind.TelemetryIntent? then S.TelemetryEmitted
        else if spec.kind.SafetyIntent? then S.SafeStateRequested
        else if p.sup.emergency && spec.level.value != setup.registry.actuators[Fan].safeLevelWhenHot
          then S.RejectedEmergencyOverride
        else if !S.BudgetAllows(setup, p, Fan, spec.level.value, time,
                                setup.registry.capabilities[spec.capability])
          then S.RejectedTransitionBudget
        else S.Applied
  {
  }

  lemma EmittedIsReferenced(p: Program, spec: IntentSpec)
    requires p.Emits(spec)
    ensures spec.capability in p.CapabilitiesUsed()
    ensures spec.pin.Some? ==> spec.pin.value in p.PinsUsed()
  {
    if spec !in p.fallback {
      var i :| 0 <= i < |p.rules| && spec in p.rules[i].emit;
      assert p.rules[i] in p.rules;
    }
  }

  /** A validated manifest drives an actuator only through the hardware it is wired to. */
  lemma WiredAsDeclared(m: Manifest, registry: Registry, schema: Schema, c: Capability, pin: int)
    requires Valid(m, registry, schema) && WellFormed(registry, schema)
    requires c in m.requested && c in registry.capabilities && registry.capabilities[c].limits.Some?
    requires pin in registry.capabilities[c].permittedPins && pin in schema.pinout
    ensures registry.capabilities[c].limits.value.actuator == Fan
    ensures schema.pinout[pin] == registry.actuators[Fan].connectedDevice
  {
    var entry := registry.capabilities[c];
    assert EntryAgrees(entry, registry, schema);
    assert ActuatorEntryAgrees(entry, registry, schema);
    assert entry.limits.value.actuator in registry.actuators.Keys;
    assert !Justified(m, registry, schema, WrongHardware(c, pin));
    assert Declares(m, registry, c, HardwareTypeMatches);
    assert schema.pinout[pin] in entry.compatibleHardware;
  }

  /** Every intent a validated and compiled program can emit is statically fine and declared. */
  lemma CompiledIntentsPassStaticChecks(hash: Manifest -> Hash, m: Manifest, setup: S.Setup, p: Program,
                                        spec: IntentSpec)
    requires m.WellFormed() && Valid(m, setup.registry, setup.schema) && WellFormed(setup.registry, setup.schema)
    requires Compile(hash, m, setup.registry, setup.schema) == Ok(p) && p.Emits(spec)
    ensures StaticallyFine(setup, spec) && spec.capability in p.CapabilitiesUsed()
  {
    var registry, schema := setup.registry, setup.schema;
    EmittedSpecIsBuilt(hash, m, registry, schema, p, spec);
    EmittedIsReferenced(p, spec);
    CompiledFrom(hash, m, registry, schema, p);
    var entry := registry.capabilities[spec.capability];
    assert EntryAgrees(entry, registry, schema);
    if spec.kind.ActuatorIntent? {
      assert entry.permittedPins[0] == spec.pin.value;
      WiredAsDeclared(m, registry, schema, spec.capability, spec.pin.value);
      assert ActuatorEntryAgrees(entry, registry, schema);
    }
  }

  /** Accepted, or refused for one of the three reasons that depend on the moment. */
  predicate OfTheMoment(v: S.Verdict) {
    v in {S.TelemetryEmitted, S.SafeStateRequested, S.Applied, S.RejectedSafeState, S.RejectedEmergencyOverride,
          S.RejectedTransitionBudget}
  }

  predicate Presentable(setup: S.Setup, allowed: set<Capability>, intents: seq<Intent>) {
    forall k :: 0 <= k < |intents| ==>
      StaticallyFine(setup, intents[k].spec) && intents[k].spec.capability in allowed
  }

  lemma {:induction false} PresentableVerdicts(setup: S.Setup, p: S.Plant, intents: seq<Intent>, time: real)
    requires Presentable(setup, p.sup.allowed, intents)
    ensures forall k :: 0 <= k < |S.Verdicts(setup, p, intents, time)| ==>
      OfTheMoment(S.Verdicts(setup, p, intents, time)[k])
    decreases |intents|
  {
    if intents != [] {
      var rest := intents[1..];
      OnlyDynamicRejections(setup, p, intents[0], time);
      assert forall k :: 0 <= k < |rest| ==> rest[k] == intents[k + 1];
      PresentableVerdicts(setup, S.Consider(setup, p, intents[0], time), rest, time);
    }
  }

  /** What a step emits, the yield step included, is among what the program can emit. */
  lemma StepEmits(c: Runtime.Controller, o: Runtime.Observation)
    requires Runtime.Step(c, o).Stepped?
    ensures forall k :: 0 <= k < |Runtime.Step(c, o).emission.intents| ==>
      c.program.Emits(Runtime.Step(c, o).emission.intents[k].spec)
    ensures forall k :: 0 <= k < |Runtime.Shutdown(c).intents| ==>
      c.program.Emits(Runtime.Shutdown(c).intents[k].spec)
  {
    R.RulesStampTicks(R.Counted(c), c.program.rules, o);
  }

  ghost predicate EmitsPresentably(setup: S.Setup, p: Program) {
    forall s :: p.Emits(s) ==> StaticallyFine(setup, s) && s.capability in p.CapabilitiesUsed()
  }

  lemma CompiledEmitsPresentably(hash: Manifest -> Hash, m: Manifest, setup: S.Setup, p: Program)
    requires m.WellFormed() && Valid(m, setup.registry, setup.schema) && WellFormed(setup.registry, setup.schema)
    requires Compile(hash, m, setup.registry, setup.schema) == Ok(p)
    ensures EmitsPresentably(setup, p)
  {
    forall s | p.Emits(s)
      ensures StaticallyFine(setup, s) && s.capability in p.CapabilitiesUsed()
    {
      CompiledIntentsPassStaticChecks(hash, m, setup, p, s);
    }
  }

  /** In any run, on any plant that allows the program: whatever a step of a validated and compiled
      program emits, or its fallback on the way out, is accepted or refused for a reason of the moment. */
  lemma CompiledIntentsAreJudgedByTheMoment(setup: S.Setup, c: Runtime.Controller, o: Runtime.Observation,
                                            q: S.Plant, time: real)
    requires EmitsPresentably(setup, c.program) && q.sup.allowed == c.program.CapabilitiesUsed()
    requires Runtime.Step(c, o).Stepped?
    ensures var verdicts := S.Verdicts(setup, q, Runtime.Step(c, o).emission.intents, time);
      forall k :: 0 <= k < |verdicts| ==> OfTheMoment(verdicts[k])
    ensures var verdicts := S.Verdicts(setup, q, Runtime.Shutdown(c).intents, time);
      forall k :: 0 <= k < |verdicts| ==> OfTheMoment(verdicts[k])
  {
    StepEmits(c, o);
    PresentableVerdicts(setup, q, Runtime.Step(c, o).emission.intents, time);
    PresentableVerdicts(setup, q, Runtime.Shutdown(c).intents, time);
  }

  // ----- The cooling shape -----

  lemma HasActuatorHold(m: Manifest, registry: Registry)
    requires m.controlPeriodSeconds > 0.0
    requires exists n :: n in m.requested && HoldOf(registry, n).Some?
    ensures MinHoldTicks(m, registry) >= 1
  {
    LongestHoldDominates(m.requested, registry);
  }

  lemma FanSpecs(m: Manifest, registry: Registry, schema: Schema, c: Capability, level: Level, spec: IntentSpec)
    requires WellFormed(registry, schema) && c in registry.capabilities
    requires (c == FanOn && level == On) || (c == FanOff && level == Off)
    requires BuildFragment(c, registry.capabilities[c], m) == Ok(IntentFragment(spec))
    ensures R.FanSpec(spec, level) && spec.capability == c
    ensures HoldOf(registry, c).Some?
  {
    assert Drives(registry, FanOn, On) && Drives(registry, FanOff, Off);
    assert EntryAgrees(registry.capabilities[c], registry, schema);
  }

  lemma ReportSpecs(m: Manifest, registry: Registry, schema: Schema, c: Capability, spec: IntentSpec)
    requires WellFormed(registry, schema) && c in registry.capabilities
    requires c in {EmitCriticalEvent, EmitContextEvent, EmitHeartbeat}
    requires BuildFragment(c, registry.capabilities[c], m) == Ok(IntentFragment(spec))
    ensures spec.kind.TelemetryIntent?
    ensures c == EmitHeartbeat ==> spec.event == Some(Heartbeat)
  {
    assert EntryAgrees(registry.capabilities[c], registry, schema);
  }

  /** A program compiled under the thermal pattern has the hysteresis shape of its manifest. */
  lemma ThermalPatternIsCooling(hash: Manifest -> Hash, m: Manifest, registry: Registry, schema: Schema, p: Program)
    requires WellFormed(registry, schema) && CompilesToCooling(hash, m, registry, schema, p)
    ensures R.IsCooling(p, m.activation, m.recovery, false)
    ensures R.LevelledProgram(p)
    ensures p.maximumDurationSeconds == m.maximumDurationSeconds
    ensures p.rules[0].emit[0].capability == FanOn && p.rules[1].emit[0].capability == FanOff
  {
    CompiledFrom(hash, m, registry, schema, p);
    CoolingProgram(m, registry, schema, p);
  }

  lemma CoolingProgram(m: Manifest, registry: Registry, schema: Schema, p: Program)
    requires WellFormed(registry, schema) && m.controlPeriodSeconds > 0.0 && Valid(m, registry, schema)
    requires forall n :: n in m.requested ==> n in registry.capabilities
    requires Needed(ThermalCooling, m) <= IntentsOf(m, registry).Keys
    requires p.rules == RulesOf(ThermalCooling, m, IntentsOf(m, registry))
    requires p.budget == BudgetOf(m, registry) && p.minHoldTicks == MinHoldTicks(m, registry)
    requires forall c :: c in IntentsOf(m, registry) ==>
      c in m.requested && BuildFragment(c, registry.capabilities[c], m) == Ok(IntentFragment(IntentsOf(m, registry)[c]))
    ensures R.IsCooling(p, m.activation, m.recovery, false)
    ensures R.LevelledProgram(p)
    ensures p.rules[0].emit[0].capability == FanOn && p.rules[1].emit[0].capability == FanOff
  {
    CoolingRules(m, registry, schema, IntentsOf(m, registry));
    HasActuatorHold(m, registry);
    WithinDeclaredBudget(m, registry, schema, p);
  }

  lemma WithinDeclaredBudget(m: Manifest, registry: Registry, schema: Schema, p: Program)
    requires Valid(m, registry, schema) && p.budget == BudgetOf(m, registry)
    ensures !Runtime.OverBudget(p)
  {
    assert !Justified(m, registry, schema, CpuOverBudget);
  }

  lemma CoolingRules(m: Manifest, registry: Registry, schema: Schema, intents: map<Capability, IntentSpec>)
    requires WellFormed(registry, schema)
    requires Needed(ThermalCooling, m) <= intents.Keys
    requires forall c :: c in intents ==>
      c in m.requested && c in registry.capabilities
      && BuildFragment(c, registry.capabilities[c], m) == Ok(IntentFragment(intents[c]))
    ensures var rules := RulesOf(ThermalCooling, m, intents);
      && |rules| >= 2
      && R.FanRule(rules[0], m.activation, On) && rules[0].emit[0].capability == FanOn
      && R.FanRule(rules[1], m.recovery, Off) && rules[1].emit[0].capability == FanOff
      && (forall i :: 2 <= i < |rules| ==> R.TelemetryRule(rules[i]))
      && (forall i :: 0 <= i < |rules| ==> R.Levelled(rules[i].emit))
    ensures FanOn in m.requested && HoldOf(registry, FanOn).Some?
  {
    assert FanOn in Needed(ThermalCooling, m) && FanOff in Needed(ThermalCooling, m);
    FanSpecs(m, registry, schema, FanOn, On, intents[FanOn]);
    FanSpecs(m, registry, schema, FanOff, Off, intents[FanOff]);
    ReportRules(m, registry, schema, intents);
    var rules := RulesOf(ThermalCooling, m, intents);
    var reports := CriticalRule(m, intents) + ContextRule(m, intents) + HeartbeatRule(m, intents);
    assert forall i :: 2 <= i < |rules| ==> rules[i] == reports[i - 2];
  }

  lemma ReportRules(m: Manifest, registry: Registry, schema: Schema, intents: map<Capability, IntentSpec>)
    requires WellFormed(registry, schema)
    requires Needed(ThermalCooling, m) <= intents.Keys
    requires forall c :: c in intents ==>
      c in registry.capabilities && BuildFragment(c, registry.capabilities[c], m) == Ok(IntentFragment(intents[c]))
    ensures var reports := CriticalRule(m, intents) + ContextRule(m, intents) + HeartbeatRule(m, intents);
      forall i :: 0 <= i < |reports| ==> R.TelemetryRule(reports[i]) && R.Levelled(reports[i].emit)
  {
    forall c | c in {EmitCriticalEvent, EmitContextEvent, EmitHeartbeat} && c in intents
      ensures intents[c].kind.TelemetryIntent?
    {
      ReportSpecs(m, registry, schema, c, intents[c]);
    }
  }

  // ----- Disjointness, end to end -----

  lemma SomeTermHolds(t: Trigger, metrics: Metrics) returns (term: Condition)
    requires t.WellFormed() && t.Evaluate(metrics)
    ensures term in t.Conditions() && term.Evaluate(metrics)
  {
    match t {
      case Single(c) =>
        term := c;
      case AllOf(ts) =>
        term := ts[0];
        assert ts[0] in ts;
      case AnyOf(ts) =>
        var i :| 0 <= i < |ts| && ts[i].Evaluate(metrics);
        term := ts[i];
    }
  }

  /** Only the temperature sensor, among the capabilities the cooling pattern knows, produces a metric. */
  ghost predicate OnlyTemperatureIsProduced(registry: Registry) {
    forall c :: c in Required(ThermalCooling) + Optional(ThermalCooling) - {ReadTemperature} ==>
      c in registry.capabilities ==> registry.capabilities[c].metric.None?
  }

  lemma ConditionsReadOneMetric(m: Manifest, registry: Registry, schema: Schema, x: Metric, y: Metric)
    requires Valid(m, registry, schema) && OnlyTemperatureIsProduced(registry)
    requires Covers(ThermalCooling, set n | n in m.requested)
    requires x in m.MetricsUsed() && y in m.MetricsUsed()
    ensures x == y
  {
    assert !Justified(m, registry, schema, ReadsUndeclared(x));
    assert !Justified(m, registry, schema, ReadsUndeclared(y));
    assert !Justified(m, registry, schema, InputNotRegistered(x));
    assert !Justified(m, registry, schema, InputNotRegistered(y));
    assert !Justified(m, registry, schema, InputNotProduced(x));
    assert !Justified(m, registry, schema, InputNotProduced(y));
    forall z | z in Produced(m, registry)
      ensures registry.capabilities[ReadTemperature].metric == Some(z)
    {
      var c :| c in m.requested && c in registry.capabilities && registry.capabilities[c].metric == Some(z);
      assert c in set n | n in m.requested;
    }
  }

  lemma TermsDisjoint(m: Manifest, registry: Registry, schema: Schema, left: Condition, right: Condition, x: real)
    requires Valid(m, registry, schema) && left.metric == right.metric
    requires left in m.activation.Conditions() && right in m.recovery.Conditions()
    ensures !BothHold(left, right, x)
  {
    assert !Justified(m, registry, schema, Overlap(left, right));
    ProbesAreExact(left, right);
  }

  /** For every manifest that passes validation and compiles to cooling, no reading makes the
      activation and the recovery condition true together, whatever the shape of the two groups. */
  lemma DisjointEndToEnd(hash: Manifest -> Hash, m: Manifest, registry: Registry, schema: Schema, p: Program)
    requires CompilesToCooling(hash, m, registry, schema, p) && OnlyTemperatureIsProduced(registry)
    ensures R.Disjoint(m.activation, m.recovery)
  {
    CompiledFrom(hash, m, registry, schema, p);
    forall metrics: Metrics
      ensures !(m.activation.Evaluate(metrics) && m.recovery.Evaluate(metrics))
    {
      if m.activation.Evaluate(metrics) && m.recovery.Evaluate(metrics) {
        var left := SomeTermHolds(m.activation, metrics);
        var right := SomeTermHolds(m.recovery, metrics);
        ConditionsReadOneMetric(m, registry, schema, left.metric, right.metric);
        TermsDisjoint(m, registry, schema, left, right, metrics[left.metric]);
      }
    }
  }

  /** A reading on which a comparison holds. */
  function ReadingFor(c: Condition): real {
    match c.op
    case GE => c.value
    case LE => c.value
    case EQ => c.value
    case GT => c.value + 1.0
    case NE => c.value + 1.0
    case LT => c.value - 1.0
  }

  lemma OneDisjunctIsEnough(t: Trigger, c: Condition, metrics: Metrics)
    requires !t.AllOf? && c in t.Conditions() && c.Evaluate(metrics)
    ensures t.Evaluate(metrics)
  {
  }

  /** What the validator's overlap check is worth by itself: for conditions it has no complaint about,
      and without conjunctions, activation and recovery are disjoint if and only if all their terms read
      the same metric. It is silent about terms on different metrics, and those can always both hold. */
  lemma OverlapCheckSufficesExactlyWhen(m: Manifest, registry: Registry, schema: Schema)
    requires !m.activation.AllOf? && !m.recovery.AllOf?
    requires forall left, right :: !Justified(m, registry, schema, Overlap(left, right))
    ensures R.Disjoint(m.activation, m.recovery)
       <==> forall left, right :: left in m.activation.Conditions() && right in m.recovery.Conditions() ==>
              left.metric == right.metric
  {
    if left, right :| left in m.activation.Conditions() && right in m.recovery.Conditions()
                      && left.metric != right.metric {
      var metrics: Metrics := map[left.metric := ReadingFor(left), right.metric := ReadingFor(right)];
      OneDisjunctIsEnough(m.activation, left, metrics);
      OneDisjunctIsEnough(m.recovery, right, metrics);
      assert m.activation.Evaluate(metrics) && m.recovery.Evaluate(metrics);
    } else {
      forall metrics: Metrics
        ensures !(m.activation.Evaluate(metrics) && m.recovery.Evaluate(metrics))
      {
        if m.activation.Evaluate(metrics) && m.recovery.Evaluate(metrics) {
          var left := HoldingDisjunct(m.activation, metrics);
          var right := HoldingDisjunct(m.recovery, metrics);
          assert !Justified(m, registry, schema, Overlap(left, right));
          assert BothHold(left, right, metrics[left.metric]);
          ProbesAreExact(left, right);
        }
      }
    }
  }

  predicate OneMetric(t: Trigger, x: Metric) {
    forall i :: 0 <= i < |t.Conditions()| ==> t.Conditions()[i].metric == x
  }

  /** On one metric and without conjunctions the overlap check is exact: it complains if and only if
      some reading makes both conditions true. */
  lemma OverlapCheckIsExactForDisjunctions(m: Manifest, registry: Registry, schema: Schema, x: Metric)
    requires !m.activation.AllOf? && !m.recovery.AllOf?
    requires OneMetric(m.activation, x) && OneMetric(m.recovery, x)
    ensures (exists left, right :: Justified(m, registry, schema, Overlap(left, right)))
      <==> !R.Disjoint(m.activation, m.recovery)
  {
    if left, right :| Justified(m, registry, schema, Overlap(left, right)) {
      ProbesAreExact(left, right);
      var reading: real :| BothHold(left, right, reading);
      var metrics: Metrics := map[x := reading];
      var i :| 0 <= i < |m.activation.Conditions()| && m.activation.Conditions()[i] == left;
      var j :| 0 <= j < |m.recovery.Conditions()| && m.recovery.Conditions()[j] == right;
      assert m.activation.Conditions()[i].Evaluate(metrics) && m.recovery.Conditions()[j].Evaluate(metrics);
      assert m.activation.Evaluate(metrics) && m.recovery.Evaluate(metrics);
    }
    if !R.Disjoint(m.activation, m.recovery) {
      var metrics: Metrics :| m.activation.Evaluate(metrics) && m.recovery.Evaluate(metrics);
      var left := HoldingDisjunct(m.activation, metrics);
      var right := HoldingDisjunct(m.recovery, metrics);
      assert BothHold(left, right, metrics[x]);
      ProbesAreExact(left, right);
      assert Justified(m, registry, schema, Overlap(left, right));
    }
  }

  lemma HoldingDisjunct(t: Trigger, metrics: Metrics) returns (term: Condition)
    requires !t.AllOf? && t.Evaluate(metrics)
    ensures term in t.Conditions() && term.Evaluate(metrics)
  {
    match t {
      case Single(c) => term := c;
      case AnyOf(ts) =>
        var i :| 0 <= i < |ts| && ts[i].Evaluate(metrics);
        term := ts[i];
    }
  }

  /** With a conjunction the pairwise check is only sound: it refuses 80..90 against "below 70",
      although no reading is in both, because "at most 90" and "below 70" overlap as a pair. */
  lemma OverlapCheckOverRejectsConjunctions(m: Manifest, registry: Registry, schema: Schema)
    requires m.activation == AllOf([Condition(TemperatureC, GE, 80.0), Condition(TemperatureC, LE, 90.0)])
    requires m.recovery == Single(Condition(TemperatureC, LT, 70.0))
    ensures R.Disjoint(m.activation, m.recovery)
    ensures exists left, right :: Justified(m, registry, schema, Overlap(left, right))
  {
    var low, high := Condition(TemperatureC, GE, 80.0), Condition(TemperatureC, LE, 90.0);
    var cold := Condition(TemperatureC, LT, 70.0);
    forall metrics: Metrics
      ensures !(m.activation.Evaluate(metrics) && m.recovery.Evaluate(metrics))
    {
      if m.activation.Evaluate(metrics) {
        assert m.activation.terms[0] == low && m.activation.terms[0].Evaluate(metrics);
      }
    }
    assert BothHold(high, cold, 60.0);
    ProbesAreExact(high, cold);
    assert m.activation.Conditions()[1] == high;
    assert Justified(m, registry, schema, Overlap(high, cold));
  }

  // ----- Compilation preserves meaning -----

  /** The fan commands of a compiled cooling manifest, on any observation stream within the lease,
      are those of the two-threshold switch read off the manifest; and the rule order is immaterial. */
  lemma {:induction false} CompilationPreservesMeaning(
    hash: Manifest -> Hash, m: Manifest, registry: Registry, schema: Schema, p: Program,
    time: real, actuators: map<Actuator, Level>, stream: seq<Runtime.Observation>)
    requires WellFormed(registry, schema) && OnlyTemperatureIsProduced(registry)
    requires CompilesToCooling(hash, m, registry, schema, p)
    requires R.WithinLease(Runtime.Initialized(p, time, actuators), stream)
    ensures |p.rules| >= 2
    ensures R.FanTrace(Runtime.Initialized(p, time, actuators), stream)
         == R.SwitchTrace(R.Switch(Lookup(actuators, Fan), None), m.activation, m.recovery,
                          MinHoldTicks(m, registry), stream)
    ensures R.FanTrace(Runtime.Initialized(R.SwapRules(p), time, actuators), stream)
         == R.FanTrace(Runtime.Initialized(p, time, actuators), stream)
  {
    ThermalPatternIsCooling(hash, m, registry, schema, p);
    DisjointEndToEnd(hash, m, registry, schema, p);
    CompiledFrom(hash, m, registry, schema, p);
    R.CoolingMeansHysteresis(Runtime.Initialized(p, time, actuators), m.activation, m.recovery, false, stream);
    R.RuleOrderIsPresentation(p, m.activation, m.recovery, time, actuators, stream);
  }

  // ----- The hold is the registry's -----

  /** A hold of `k` control periods meets every requested capability's declared minimum. */
  predicate Sufficient(k: int, m: Manifest, registry: Registry) {
    forall n :: n in m.requested && HoldOf(registry, n).Some? ==>
      HoldOf(registry, n).value <= k as real * m.controlPeriodSeconds
  }

  /** The compiled hold is the least positive number of control periods that meets them all. */
  lemma HoldIsTheRegistrys(m: Manifest, registry: Registry)
    requires m.controlPeriodSeconds > 0.0
    ensures Sufficient(MinHoldTicks(m, registry), m, registry)
    ensures forall k :: 1 <= k < MinHoldTicks(m, registry) ==> !Sufficient(k, m, registry)
  {
    LongestHoldDominates(m.requested, registry);
    var longest := LongestHold(m.requested, registry);
    var period := m.controlPeriodSeconds;
    if longest.Some? {
      var quotient := longest.value / period;
      var ticks := MinHoldTicks(m, registry);
      assert quotient * period == longest.value;
      Scale(quotient, ticks as real, period);
      var strictest :| strictest in m.requested && HoldOf(registry, strictest) == longest;
      forall k | 1 <= k < ticks
        ensures !Sufficient(k, m, registry)
      {
        assert k as real < quotient;
        assert (quotient - k as real) * period > 0.0;
        assert HoldOf(registry, strictest).value > k as real * period;
      }
    }
  }

  // ----- Capability order -----

  function Blank(r: Result<Program, Refusal>): Result<Program, Refusal> {
    if r.Ok? then Ok(r.value.(manifestHash := "")) else r
  }

  lemma SameMembers(s: seq<Capability>, t: seq<Capability>)
    requires multiset(s) == multiset(t)
    ensures forall c :: c in s <==> c in t
    ensures (set c | c in s) == (set c | c in t)
  {
    assert forall c :: c in s <==> c in multiset(s);
    assert forall c :: c in t <==> c in multiset(t);
  }

  /** Assembly reads the request list only through membership, sums and the longest hold. */
  lemma SameAssembly(h: Hash, g: Hash, m: Manifest, order: seq<Capability>, registry: Registry, pattern: PatternId,
                     fs: Fragments)
    requires m.controlPeriodSeconds > 0.0 && multiset(order) == multiset(m.requested)
    ensures Blank(Assemble(h, m.(requested := order), registry, pattern, fs))
         == Blank(Assemble(g, m, registry, pattern, fs))
  {
    var other := m.(requested := order);
    SameMembers(order, m.requested);
    OrderDoesNotMatter(order, m.requested, registry);
    assert Needed(pattern, m) == Needed(pattern, other);
    assert BudgetOf(m, registry) == BudgetOf(other, registry);
    assert MinHoldTicks(m, registry) == MinHoldTicks(other, registry);
    if Needed(pattern, m) <= fs.intents.Keys {
      assert HasCritical(m) == HasCritical(other);
      assert RulesOf(pattern, m, fs.intents) == RulesOf(pattern, other, fs.intents);
      assert FallbackOf(m, fs.intents) == FallbackOf(other, fs.intents);
    }
  }

  lemma PinsIgnoreHash(a: Result<Program, Refusal>, b: Result<Program, Refusal>, schema: Schema)
    requires Blank(a) == Blank(b)
    ensures a.Ok? <==> b.Ok?
    ensures if a.Ok? then Blank(CheckPins(a.value, schema)) == Blank(CheckPins(b.value, schema)) else a == b
  {
    if a.Ok? {
      assert a.value.(manifestHash := "") == b.value.(manifestHash := "");
      assert a.value.PinsUsed() == b.value.PinsUsed();
    }
  }

  /** Listing the same capabilities in another order gives the same verdict and the same program,
      the embedded manifest hash apart. */
  lemma CapabilityOrderIsIrrelevant(hash: Manifest -> Hash, m: Manifest, order: seq<Capability>, registry: Registry,
                                    schema: Schema)
    requires m.controlPeriodSeconds > 0.0
    requires multiset(order) == multiset(m.requested)
    ensures Blank(Compile(hash, m.(requested := order), registry, schema)) == Blank(Compile(hash, m, registry, schema))
  {
    var other := m.(requested := order);
    SameMembers(order, m.requested);
    OrderDoesNotMatter(order, m.requested, registry);
    if forall n :: n in m.requested ==> n in registry.capabilities {
      SortedKeepsElements(m.requested);
      SameFragments(Sorted(m.requested), m, other, registry);
      var built := FragmentsOf(Sorted(m.requested), m, registry);
      var pattern := SelectPattern(set n | n in m.requested);
      if built.Ok? && pattern.Some? {
        SameAssembly(hash(other), hash(m), m, order, registry, pattern.value, built.value);
        PinsIgnoreHash(Assemble(hash(other), other, registry, pattern.value, built.value),
                       Assemble(hash(m), m, registry, pattern.value, built.value), schema);
      }
    }
  }

  /** A template reads nothing of the manifest but its trigger event. */
  lemma {:induction false} SameFragments(names: seq<Capability>, m: Manifest, other: Manifest, registry: Registry)
    requires forall n :: n in names ==> n in registry.capabilities
    requires m.triggerEvent == other.triggerEvent
    ensures FragmentsOf(names, m, registry) == FragmentsOf(names, other, registry)
  {
    if names != [] {
      SameFragments(names[..|names| - 1], m, other, registry);
    }
  }
}
