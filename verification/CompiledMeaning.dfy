/** What a compiled program is and does, read off its manifest and the registry alone: its pattern, what it
    says of every intent, its fallback, and what each of its steps reports. */
module CompiledMeaning {
  import opened Names
  import opened Manifests
  import opened Registries
  import opened Programs
  import opened Compiler
  import opened Runtime
  import opened CompilerProofs
  import Validator
  import R = RuntimeProofs
  import Config
  import Costs

  // ----- Header and pattern -----

  /** Identity, addressing and limits are the manifest's, the registry's name and content the registry's. */
  lemma HeaderIsTheManifests(hash: Manifest -> Hash, m: Manifest, registry: Registry, schema: Schema, p: Program)
    requires m.controlPeriodSeconds > 0.0 && Compile(hash, m, registry, schema) == Ok(p)
    ensures p.manifestId == m.manifestId && p.manifestHash == hash(m) && p.eventId == m.eventId
    ensures p.deviceId == m.deviceId && p.sourceFirmwareHash == m.currentFirmwareHash
    ensures p.registryVersion == m.registryVersion == registry.version && p.registryHash == registry.contentHash
    ensures p.controlPeriodSeconds == m.controlPeriodSeconds && p.maximumDurationSeconds == m.maximumDurationSeconds
    ensures p.emergencyTempC == 95.0 && p.fallbackBehavior == m.fallback
    ensures p.budget.maxCpuMsPerStep == m.budget.maxCpuMsPerStep && p.budget.maxMemoryKb == m.budget.maxMemoryKb
    ensures p.budget.maxActuatorTransitionsPerMinute == m.budget.maxActuatorTransitionsPerMinute
  {
    Compiled(hash, m, registry, schema, p);
  }

  /** A compiled program is the assembly of its parts. */
  lemma Compiled(hash: Manifest -> Hash, m: Manifest, registry: Registry, schema: Schema, p: Program)
    requires m.controlPeriodSeconds > 0.0 && Compile(hash, m, registry, schema) == Ok(p)
    ensures m.registryVersion == registry.version && forall n :: n in m.requested ==> n in registry.capabilities
    ensures SelectPattern(set n | n in m.requested) == Some(p.pattern)
    ensures Assemble(hash(m), m, registry, p.pattern, Fragments(p.sensors, IntentsOf(m, registry))) == Ok(p)
  {
  }

  /** Cooling asks for the sensor and both fan capabilities, monitoring for the sensor and a heartbeat, idling
      for the safe state, and none of them takes on anything it has no rule for. */
  predicate Fits(p: PatternId, requested: seq<Capability>) {
    match p
    case ThermalCooling =>
      && ReadTemperature in requested && FanOn in requested && FanOff in requested
      && forall c :: c in requested ==>
           c in {ReadTemperature, FanOn, FanOff, EmitHeartbeat, EmitContextEvent, EmitCriticalEvent, EnterSafeIdle}
    case MonitorOnly =>
      && ReadTemperature in requested && EmitHeartbeat in requested
      && forall c :: c in requested ==>
           c in {ReadTemperature, ReadDistance, EmitHeartbeat, EmitContextEvent, EmitCriticalEvent, EnterSafeIdle}
    case SafeIdlePattern =>
      && EnterSafeIdle in requested
      && forall c :: c in requested ==> c in {EnterSafeIdle, EmitHeartbeat, EmitCriticalEvent, ReadTemperature}
  }

  lemma FitsIsCovers(p: PatternId, requested: seq<Capability>)
    ensures Fits(p, requested) <==> Covers(p, set n | n in requested)
  {
    var asked := set n | n in requested;
    assert forall n :: n in requested <==> n in asked;
    if Covers(p, asked) {
      assert forall n :: n in Required(p) ==> n in asked;
      assert forall n :: n in asked ==> n in Required(p) + Optional(p);
    }
  }

  /** The pattern is the first that fits, cooling before monitoring before idling. */
  lemma PatternIsTheFirstThatFits(hash: Manifest -> Hash, m: Manifest, registry: Registry, schema: Schema, p: Program)
    requires m.controlPeriodSeconds > 0.0 && Compile(hash, m, registry, schema) == Ok(p)
    ensures Fits(p.pattern, m.requested)
    ensures !p.pattern.ThermalCooling? ==> !Fits(ThermalCooling, m.requested)
    ensures p.pattern.SafeIdlePattern? ==> !Fits(MonitorOnly, m.requested)
  {
    Compiled(hash, m, registry, schema, p);
    FitsIsCovers(ThermalCooling, m.requested);
    FitsIsCovers(MonitorOnly, m.requested);
    FitsIsCovers(SafeIdlePattern, m.requested);
  }

  // ----- Intents -----

  /** Says of an intent what the registry says of its capability: which actuator, to which level, on the one
      pin permitted, at what current; or which event; or the safe state. */
  predicate AsRegistered(spec: IntentSpec, entry: CapabilityEntry, trigger: Event) {
    match entry.kind
    case ActuatorKind =>
      && entry.limits.Some? && |entry.permittedPins| == 1
      && spec == IntentSpec(spec.capability, ActuatorIntent, Some(entry.limits.value.actuator),
                            Some(entry.limits.value.level), Some(entry.permittedPins[0]), None,
                            Some(entry.limits.value.currentMa))
    case TelemetryKind =>
      && !entry.event.NoEvent?
      && spec == IntentSpec(spec.capability, TelemetryIntent, None, None, None,
                            Some(if entry.event.FixedEvent? then entry.event.event else trigger), None)
    case SafetyKind => spec == IntentSpec(spec.capability, SafetyIntent, None, None, None, None, None)
    case SensorKind => false
  }

  lemma BuiltAsRegistered(c: Capability, entry: CapabilityEntry, m: Manifest, spec: IntentSpec, registry: Registry,
                          schema: Schema)
    requires EntryAgrees(entry, registry, schema) && BuildFragment(c, entry, m) == Ok(IntentFragment(spec))
    ensures spec.capability == c && AsRegistered(spec, entry, m.triggerEvent)
  {
  }

  /** Every intent a compiled program can emit says what the registry says of a requested capability. */
  lemma IntentsAreAsRegistered(hash: Manifest -> Hash, m: Manifest, registry: Registry, schema: Schema, p: Program,
                               spec: IntentSpec)
    requires WellFormed(registry, schema) && m.controlPeriodSeconds > 0.0
    requires Compile(hash, m, registry, schema) == Ok(p) && p.Emits(spec)
    ensures spec.capability in m.requested && spec.capability in registry.capabilities
    ensures AsRegistered(spec, registry.capabilities[spec.capability], m.triggerEvent)
  {
    EmittedSpecIsBuilt(hash, m, registry, schema, p, spec);
    var entry := registry.capabilities[spec.capability];
    assert EntryAgrees(entry, registry, schema);
    BuiltAsRegistered(spec.capability, entry, m, spec, registry, schema);
  }

  /** Compiled, from a well-formed registry: the table every rule and the fallback were drawn from. */
  lemma TableOf(hash: Manifest -> Hash, m: Manifest, registry: Registry, schema: Schema, p: Program)
    requires WellFormed(registry, schema) && m.controlPeriodSeconds > 0.0
    requires Compile(hash, m, registry, schema) == Ok(p)
    ensures forall n :: n in m.requested ==> n in registry.capabilities
    ensures Needed(p.pattern, m) <= IntentsOf(m, registry).Keys
    ensures p.rules == RulesOf(p.pattern, m, IntentsOf(m, registry))
    ensures p.fallback == FallbackOf(m, IntentsOf(m, registry))
    ensures forall c :: c in IntentsOf(m, registry) ==>
      && c in m.requested && IntentsOf(m, registry)[c].capability == c
      && AsRegistered(IntentsOf(m, registry)[c], registry.capabilities[c], m.triggerEvent)
  {
    CompiledFrom(hash, m, registry, schema, p);
    var table := IntentsOf(m, registry);
    forall c | c in table
      ensures table[c].capability == c && AsRegistered(table[c], registry.capabilities[c], m.triggerEvent)
    {
      assert EntryAgrees(registry.capabilities[c], registry, schema);
      BuiltAsRegistered(c, registry.capabilities[c], m, table[c], registry, schema);
    }
  }

  // ----- The fallback -----

  /** A fallback choice compiles to what it promises: leaving cooling on to exactly one command that turns
      the fan on, the safe state to exactly one request for it, restoring the previous firmware, which is
      the device's own affair, to nothing. */
  lemma FallbackKeepsItsPromise(hash: Manifest -> Hash, m: Manifest, registry: Registry, schema: Schema, p: Program)
    requires WellFormed(registry, schema) && m.controlPeriodSeconds > 0.0
    requires Compile(hash, m, registry, schema) == Ok(p)
    ensures m.fallback.FallbackHoldCooling? ==>
      |p.fallback| == 1 && R.FanSpec(p.fallback[0], On) && p.fallback[0].capability == FanOn
    ensures m.fallback.FallbackSafeIdle? ==>
      |p.fallback| == 1 && p.fallback[0].kind.SafetyIntent? && p.fallback[0].capability == EnterSafeIdle
    ensures m.fallback.FallbackRestorePrevious? ==> p.fallback == []
  {
    TableOf(hash, m, registry, schema, p);
    assert Drives(registry, FanOn, On);
  }

  // ----- What a step reports -----

  /** The capabilities that a step's intents other than actuator commands name, in order. */
  function Said(intents: seq<Intent>): seq<Capability> {
    if intents == [] then []
    else (if intents[0].spec.Commands() then [] else [intents[0].spec.capability]) + Said(intents[1..])
  }

  lemma {:induction false} SaidConcat(s: seq<Intent>, t: seq<Intent>)
    ensures Said(s + t) == Said(s) + Said(t)
  {
    if s == [] {
      assert s + t == t;
    } else {
      assert (s + t)[1..] == s[1..] + t;
      SaidConcat(s[1..], t);
    }
  }

  /** What a list of rules with one intent each has to say about a reading. */
  function Voices(rules: seq<Rule>, metrics: Metrics): seq<Capability>
    requires forall i :: 0 <= i < |rules| ==> |rules[i].emit| == 1
  {
    if rules == [] then []
    else
      (if Holds(rules[0].condition, metrics) && !rules[0].emit[0].Commands() then [rules[0].emit[0].capability] else [])
      + Voices(rules[1..], metrics)
  }

  lemma {:induction false} VoicesConcat(s: seq<Rule>, t: seq<Rule>, metrics: Metrics)
    requires forall i :: 0 <= i < |s| ==> |s[i].emit| == 1
    requires forall i :: 0 <= i < |t| ==> |t[i].emit| == 1
    ensures Voices(s + t, metrics) == Voices(s, metrics) + Voices(t, metrics)
  {
    if s == [] {
      assert s + t == t;
    } else {
      assert (s + t)[1..] == s[1..] + t;
      VoicesConcat(s[1..], t, metrics);
    }
  }

  lemma OneRuleSays(c: Controller, rule: Rule, o: Observation)
    requires |rule.emit| == 1
    ensures Said(EmitAll(c, rule.emit, o).intents) ==
      if rule.emit[0].Commands() then [] else [rule.emit[0].capability]
  {
    var first := MaybeEmit(c, rule.emit[0], o);
    assert rule.emit[1..] == [];
    assert EmitAll(first.after, [], o) == Emission(first.after, []);
    assert first.intents + [] == first.intents;
  }

  lemma {:induction false} RulesSay(c: Controller, rules: seq<Rule>, o: Observation)
    requires forall i :: 0 <= i < |rules| ==> |rules[i].emit| == 1
    ensures Said(RunRules(c, rules, o).intents) == Voices(rules, o.metrics)
    decreases |rules|
  {
    if rules != [] {
      if Holds(rules[0].condition, o.metrics) {
        var first := EmitAll(c, rules[0].emit, o);
        OneRuleSays(c, rules[0], o);
        RulesSay(first.after, rules[1..], o);
        SaidConcat(first.intents, RunRules(first.after, rules[1..], o).intents);
      } else {
        RulesSay(c, rules[1..], o);
      }
    }
  }

  /** A critical report is due when it was asked for, on the temperature it needs, at an emergency. */
  predicate CriticalDue(m: Manifest, metrics: Metrics) {
    && EmitCriticalEvent in m.requested && TemperatureC in m.sensorInputs
    && TemperatureC in metrics && metrics[TemperatureC] >= 95.0
  }

  /** A context report is due while the activation condition holds. */
  predicate ContextDue(m: Manifest, metrics: Metrics) {
    EmitContextEvent in m.requested && m.activation.Evaluate(metrics)
  }

  function If(due: bool, c: Capability): seq<Capability> { if due then [c] else [] }

  /** What a step has to say besides its commands, by the pattern, the request and the reading. */
  function DueReports(p: PatternId, m: Manifest, metrics: Metrics): seq<Capability> {
    var beat := If(EmitHeartbeat in m.requested, EmitHeartbeat);
    match p
    case ThermalCooling =>
      If(CriticalDue(m, metrics), EmitCriticalEvent) + If(ContextDue(m, metrics), EmitContextEvent) + beat
    case MonitorOnly =>
      If(ContextDue(m, metrics), EmitContextEvent) + If(CriticalDue(m, metrics), EmitCriticalEvent) + beat
    case SafeIdlePattern => [EnterSafeIdle] + beat
  }

  /** No command: a report or the request for the safe state. */
  predicate Reporting(table: map<Capability, IntentSpec>, c: Capability) {
    c in table ==> table[c].capability == c && !table[c].Commands()
  }

  predicate Quiet(table: map<Capability, IntentSpec>) {
    && Reporting(table, EmitCriticalEvent) && Reporting(table, EmitContextEvent)
    && Reporting(table, EmitHeartbeat) && Reporting(table, EnterSafeIdle)
  }

  lemma OneVoice(rule: Rule, metrics: Metrics)
    requires |rule.emit| == 1
    ensures Voices([rule], metrics) ==
      if Holds(rule.condition, metrics) && !rule.emit[0].Commands() then [rule.emit[0].capability] else []
  {
    assert [rule][1..] == [];
  }

  lemma OptionalVoices(m: Manifest, table: map<Capability, IntentSpec>, metrics: Metrics)
    requires HasCritical(m) ==> EmitCriticalEvent in table
    requires EmitContextEvent in m.requested ==> EmitContextEvent in table
    requires EmitHeartbeat in m.requested ==> EmitHeartbeat in table
    requires Quiet(table)
    ensures Voices(CriticalRule(m, table), metrics) == If(CriticalDue(m, metrics), EmitCriticalEvent)
    ensures Voices(ContextRule(m, table), metrics) == If(ContextDue(m, metrics), EmitContextEvent)
    ensures Voices(HeartbeatRule(m, table), metrics) == If(EmitHeartbeat in m.requested, EmitHeartbeat)
  {
    AtMostOneVoice(CriticalRule(m, table), metrics);
    AtMostOneVoice(ContextRule(m, table), metrics);
    AtMostOneVoice(HeartbeatRule(m, table), metrics);
  }

  lemma AtMostOneVoice(rules: seq<Rule>, metrics: Metrics)
    requires |rules| <= 1 && Single(rules)
    ensures Voices(rules, metrics) ==
      if rules != [] && Holds(rules[0].condition, metrics) && !rules[0].emit[0].Commands()
      then [rules[0].emit[0].capability] else []
  {
    if rules != [] {
      assert rules == [rules[0]];
      OneVoice(rules[0], metrics);
    }
  }

  predicate Single(rules: seq<Rule>) { forall i :: 0 <= i < |rules| ==> |rules[i].emit| == 1 }

  lemma ThreeVoices(r: seq<Rule>, s: seq<Rule>, t: seq<Rule>, metrics: Metrics)
    requires Single(r) && Single(s) && Single(t)
    ensures Single(r + s + t)
    ensures Voices(r + s + t, metrics) == Voices(r, metrics) + Voices(s, metrics) + Voices(t, metrics)
  {
    VoicesConcat(r, s, metrics);
    VoicesConcat(r + s, t, metrics);
  }

  lemma CoolingVoices(m: Manifest, table: map<Capability, IntentSpec>, metrics: Metrics)
    requires Needed(ThermalCooling, m) <= table.Keys
    requires Quiet(table)
    requires table[FanOn].Commands() && table[FanOff].Commands()
    ensures Single(RulesOf(ThermalCooling, m, table))
    ensures Voices(RulesOf(ThermalCooling, m, table), metrics) == DueReports(ThermalCooling, m, metrics)
  {
    var on := Rule(RActivate, Some(m.activation), [table[FanOn]]);
    var off := Rule(RRecover, Some(m.recovery), [table[FanOff]]);
    var reports := CriticalRule(m, table) + ContextRule(m, table) + HeartbeatRule(m, table);
    OptionalVoices(m, table, metrics);
    ThreeVoices(CriticalRule(m, table), ContextRule(m, table), HeartbeatRule(m, table), metrics);
    CommandsAreSilent(on, off, reports, metrics);
  }

  lemma CommandsAreSilent(r: Rule, s: Rule, reports: seq<Rule>, metrics: Metrics)
    requires |r.emit| == 1 && |s.emit| == 1 && r.emit[0].Commands() && s.emit[0].Commands() && Single(reports)
    ensures Single([r, s] + reports) && Voices([r, s] + reports, metrics) == Voices(reports, metrics)
  {
    OneVoice(r, metrics);
    OneVoice(s, metrics);
    VoicesConcat([r], [s], metrics);
    assert [r] + [s] == [r, s];
    VoicesConcat([r, s], reports, metrics);
  }

  lemma MonitorVoices(m: Manifest, table: map<Capability, IntentSpec>, metrics: Metrics)
    requires Needed(MonitorOnly, m) <= table.Keys
    requires Quiet(table)
    ensures Single(RulesOf(MonitorOnly, m, table))
    ensures Voices(RulesOf(MonitorOnly, m, table), metrics) == DueReports(MonitorOnly, m, metrics)
  {
    OptionalVoices(m, table, metrics);
    ThreeVoices(ContextRule(m, table), CriticalRule(m, table), HeartbeatRule(m, table), metrics);
  }

  lemma IdleVoices(m: Manifest, table: map<Capability, IntentSpec>, metrics: Metrics)
    requires Needed(SafeIdlePattern, m) <= table.Keys
    requires Quiet(table)
    ensures Single(RulesOf(SafeIdlePattern, m, table))
    ensures Voices(RulesOf(SafeIdlePattern, m, table), metrics) == DueReports(SafeIdlePattern, m, metrics)
  {
    var idle := Rule(RIdle, None, [table[EnterSafeIdle]]);
    OneVoice(idle, metrics);
    AtMostOneVoice(HeartbeatRule(m, table), metrics);
    VoicesConcat([idle], HeartbeatRule(m, table), metrics);
  }

  lemma ReportingKinds(registry: Registry, schema: Schema, m: Manifest, table: map<Capability, IntentSpec>)
    requires WellFormed(registry, schema)
    requires forall c :: c in table ==>
      && c in registry.capabilities && table[c].capability == c
      && AsRegistered(table[c], registry.capabilities[c], m.triggerEvent)
    ensures Quiet(table)
    ensures FanOn in table ==> table[FanOn].Commands()
    ensures FanOff in table ==> table[FanOff].Commands()
  {
    assert Drives(registry, FanOn, On) && Drives(registry, FanOff, Off);
    assert FanOn in table ==> EntryAgrees(registry.capabilities[FanOn], registry, schema);
    assert FanOff in table ==> EntryAgrees(registry.capabilities[FanOff], registry, schema);
  }

  lemma ProgramVoices(hash: Manifest -> Hash, m: Manifest, registry: Registry, schema: Schema, p: Program,
                      metrics: Metrics)
    requires WellFormed(registry, schema) && m.controlPeriodSeconds > 0.0
    requires Compile(hash, m, registry, schema) == Ok(p)
    ensures Single(p.rules) && Voices(p.rules, metrics) == DueReports(p.pattern, m, metrics)
  {
    var table := IntentsOf(m, registry);
    TableOf(hash, m, registry, schema, p);
    ReportingKinds(registry, schema, m, table);
    match p.pattern
    case ThermalCooling => CoolingVoices(m, table, metrics);
    case MonitorOnly => MonitorVoices(m, table, metrics);
    case SafeIdlePattern => IdleVoices(m, table, metrics);
  }

  lemma StaysWithin(hash: Manifest -> Hash, m: Manifest, registry: Registry, schema: Schema, p: Program)
    requires m.controlPeriodSeconds > 0.0 && Validator.Valid(m, registry, schema)
    requires Compile(hash, m, registry, schema) == Ok(p)
    ensures !OverBudget(p) && p.maximumDurationSeconds == m.maximumDurationSeconds
  {
    CompiledFrom(hash, m, registry, schema, p);
    WithinDeclaredBudget(m, registry, schema, p);
  }

  /** Within its lifetime a step of a validated and compiled program never faults, and besides its commands
      says exactly what its pattern makes due of the request and the reading, in that order. */
  lemma {:induction false} StepsReportWhatIsDue(hash: Manifest -> Hash, m: Manifest, registry: Registry,
                                                schema: Schema, c: Controller, o: Observation)
    requires WellFormed(registry, schema) && m.WellFormed() && Validator.Valid(m, registry, schema)
    requires Compile(hash, m, registry, schema) == Ok(c.program)
    requires c.startedAt.Some? && o.time - c.startedAt.value < m.maximumDurationSeconds as real
    ensures var result := Step(c, o);
      && result.Stepped? && Said(result.emission.intents) == DueReports(c.program.pattern, m, o.metrics)
      && forall k :: 0 <= k < |result.emission.intents| ==> result.emission.intents[k].tick == o.tick
  {
    StaysWithin(hash, m, registry, schema, c.program);
    ProgramVoices(hash, m, registry, schema, c.program, o.metrics);
    RulesSay(R.Counted(c), c.program.rules, o);
    R.RulesStampTicks(R.Counted(c), c.program.rules, o);
  }

  lemma {:induction false} SpecsAreCounted(c: Controller, specs: seq<IntentSpec>, o: Observation)
    ensures var e := EmitAll(c, specs, o);
      && e.after.transitions == c.transitions + |e.intents| - |Said(e.intents)|
      && e.after.steps == c.steps && e.after.cpuMsUsed == c.cpuMsUsed && e.after.yielded == c.yielded
    decreases |specs|
  {
    if specs != [] {
      var first := MaybeEmit(c, specs[0], o);
      SpecsAreCounted(first.after, specs[1..], o);
      SaidConcat(first.intents, EmitAll(first.after, specs[1..], o).intents);
      assert |first.intents| == 1 ==> first.intents[1..] == [];
    }
  }

  lemma {:induction false} RulesAreCounted(c: Controller, rules: seq<Rule>, o: Observation)
    ensures var e := RunRules(c, rules, o);
      && e.after.transitions == c.transitions + |e.intents| - |Said(e.intents)|
      && e.after.steps == c.steps && e.after.cpuMsUsed == c.cpuMsUsed && e.after.yielded == c.yielded
    decreases |rules|
  {
    if rules != [] {
      if Holds(rules[0].condition, o.metrics) {
        var first := EmitAll(c, rules[0].emit, o);
        SpecsAreCounted(c, rules[0].emit, o);
        RulesAreCounted(first.after, rules[1..], o);
        SaidConcat(first.intents, RunRules(first.after, rules[1..], o).intents);
      } else {
        RulesAreCounted(c, rules[1..], o);
      }
    }
  }

  /** A step faults exactly when the controller was never started or costs more than it budgets. Otherwise it
      is counted and charged once, and within the lifetime the transitions it counts are the commands it emits. */
  lemma StepsAreCounted(c: Controller, o: Observation)
    ensures var result := Step(c, o);
      && (result.Fault? <==> c.startedAt.None?
                             || c.program.budget.estimatedCpuMsPerStep > c.program.budget.maxCpuMsPerStep)
      && (result.Stepped? ==>
            var e := result.emission;
            && e.after.steps == c.steps + 1
            && e.after.cpuMsUsed == c.cpuMsUsed + c.program.budget.estimatedCpuMsPerStep
            && e.after.program == c.program && e.after.startedAt == c.startedAt
            && (o.time - c.startedAt.value < c.program.maximumDurationSeconds as real ==>
                  && e.after.yielded == c.yielded
                  && e.after.transitions == c.transitions + |e.intents| - |Said(e.intents)|))
  {
    RulesAreCounted(R.Counted(c), c.program.rules, o);
    R.RulesStampTicks(R.Counted(c), c.program.rules, o);
  }

  /** Only cooling programs command an actuator from a rule. */
  lemma OnlyCoolingCommands(hash: Manifest -> Hash, m: Manifest, registry: Registry, schema: Schema, p: Program, i: nat,
                            spec: IntentSpec)
    requires WellFormed(registry, schema) && m.controlPeriodSeconds > 0.0
    requires Compile(hash, m, registry, schema) == Ok(p) && !p.pattern.ThermalCooling?
    requires i < |p.rules| && spec in p.rules[i].emit
    ensures !spec.Commands()
  {
    var table := IntentsOf(m, registry);
    TableOf(hash, m, registry, schema, p);
    ReportingKinds(registry, schema, m, table);
    QuietRules(p.pattern, m, table, i, spec);
  }

  lemma QuietRules(pattern: PatternId, m: Manifest, table: map<Capability, IntentSpec>, i: nat, spec: IntentSpec)
    requires Needed(pattern, m) <= table.Keys && !pattern.ThermalCooling?
    requires Quiet(table)
    requires i < |RulesOf(pattern, m, table)| && spec in RulesOf(pattern, m, table)[i].emit
    ensures !spec.Commands()
  {
  }

  // ----- Sensors -----

  /** One binding for each requested sensor capability, to its metric on the one pin permitted, and no other. */
  lemma {:induction false} SensorsAreBound(names: seq<Capability>, m: Manifest, registry: Registry, schema: Schema)
    requires forall n :: n in names ==>
      n in registry.capabilities && EntryAgrees(registry.capabilities[n], registry, schema)
    requires FragmentsOf(names, m, registry).Ok?
    ensures forall b :: b in FragmentsOf(names, m, registry).value.sensors <==>
      && b.capability in names && registry.capabilities[b.capability].kind.SensorKind?
      && registry.capabilities[b.capability].metric == Some(b.metric)
      && registry.capabilities[b.capability].permittedPins == [b.pin]
  {
    if names != [] {
      var n := |names| - 1;
      SensorsAreBound(names[..n], m, registry, schema);
      assert names == names[..n] + [names[n]];
    }
  }

  lemma BindingsAreTheSensors(hash: Manifest -> Hash, m: Manifest, registry: Registry, schema: Schema, p: Program,
                              b: SensorBinding)
    requires WellFormed(registry, schema) && m.controlPeriodSeconds > 0.0
    requires Compile(hash, m, registry, schema) == Ok(p)
    ensures b in p.sensors <==>
      && b.capability in m.requested && b.capability in registry.capabilities
      && registry.capabilities[b.capability].kind.SensorKind?
      && registry.capabilities[b.capability].metric == Some(b.metric)
      && registry.capabilities[b.capability].permittedPins == [b.pin]
  {
    BuiltSensors(hash, m, registry, schema, p, Costs.Sorted(m.requested));
    Costs.SortedKeepsElements(m.requested);
    SensorsAreBound(Costs.Sorted(m.requested), m, registry, schema);
  }

  lemma BuiltSensors(hash: Manifest -> Hash, m: Manifest, registry: Registry, schema: Schema, p: Program,
                     names: seq<Capability>)
    requires WellFormed(registry, schema) && m.controlPeriodSeconds > 0.0 && names == Costs.Sorted(m.requested)
    requires Compile(hash, m, registry, schema) == Ok(p)
    ensures forall n :: n in names ==>
      n in registry.capabilities && EntryAgrees(registry.capabilities[n], registry, schema)
    ensures FragmentsOf(names, m, registry).Ok? && FragmentsOf(names, m, registry).value.sensors == p.sensors
  {
    Costs.SortedKeepsElements(m.requested);
    Compiled(hash, m, registry, schema, p);
  }

  // ----- What compiles -----

  /** The registry entry gives its template all it needs. */
  predicate Buildable(entry: CapabilityEntry) {
    match entry.kind
    case SensorKind => entry.metric.Some? && |entry.permittedPins| == 1
    case ActuatorKind => |entry.permittedPins| == 1
    case TelemetryKind => !entry.event.NoEvent?
    case SafetyKind => true
  }

  lemma BuildsWhenBuildable(c: Capability, entry: CapabilityEntry, m: Manifest, registry: Registry, schema: Schema)
    requires EntryAgrees(entry, registry, schema)
    ensures BuildFragment(c, entry, m).Ok? <==> Buildable(entry)
    ensures BuildFragment(c, entry, m).Ok? ==>
      (BuildFragment(c, entry, m).value.IntentFragment? <==> !entry.kind.SensorKind?)
  {
  }

  lemma {:induction false} AllMustBuild(names: seq<Capability>, m: Manifest, registry: Registry, schema: Schema)
    requires forall n :: n in names ==>
      n in registry.capabilities && EntryAgrees(registry.capabilities[n], registry, schema)
    ensures FragmentsOf(names, m, registry).Ok? <==> forall n :: n in names ==> Buildable(registry.capabilities[n])
    ensures FragmentsOf(names, m, registry).Ok? ==>
      forall n :: n in FragmentsOf(names, m, registry).value.intents
                  <==> n in names && !registry.capabilities[n].kind.SensorKind?
  {
    if names != [] {
      var k := |names| - 1;
      AllMustBuild(names[..k], m, registry, schema);
      BuildsWhenBuildable(names[k], registry.capabilities[names[k]], m, registry, schema);
      assert names == names[..k] + [names[k]];
    }
  }

  /** What a valid manifest's pattern and fallback look up has been asked for, and is no sensor. */
  lemma NeededIsRequested(m: Manifest, registry: Registry, schema: Schema, p: PatternId)
    requires WellFormed(registry, schema) && Validator.Valid(m, registry, schema) && Fits(p, m.requested)
    ensures forall c :: c in Needed(p, m) ==>
      c in m.requested && c in registry.capabilities && !registry.capabilities[c].kind.SensorKind?
  {
    assert !Validator.Justified(m, registry, schema, Validator.FallbackNotRequested);
    assert Drives(registry, FanOn, On) && Drives(registry, FanOff, Off);
    forall c | c in Needed(p, m)
      ensures c in m.requested && c in registry.capabilities && !registry.capabilities[c].kind.SensorKind?
    {
      assert !Validator.Justified(m, registry, schema, Validator.UnknownCapability(c));
      assert EntryAgrees(registry.capabilities[c], registry, schema);
    }
  }

  lemma PermittedIsWired(m: Manifest, registry: Registry, schema: Schema, c: Capability, pin: int)
    requires Validator.Valid(m, registry, schema) && c in m.requested && c in registry.capabilities
    requires pin in registry.capabilities[c].permittedPins
    ensures pin in schema.pinout && !schema.Forbids(pin)
  {
    assert !Validator.Justified(m, registry, schema, Validator.SweepForbiddenPin(c, pin));
    assert !Validator.Justified(m, registry, schema, Validator.SweepAbsentPin(c, pin));
  }

  /** The parts a program is put together from, all of them a valid manifest's. */
  ghost predicate PutTogether(p: Program, m: Manifest, registry: Registry, schema: Schema,
                              table: map<Capability, IntentSpec>)
  {
    && WellFormed(registry, schema) && Validator.Valid(m, registry, schema)
    && (forall n :: n in m.requested ==> n in registry.capabilities)
    && Needed(p.pattern, m) <= table.Keys
    && p.rules == RulesOf(p.pattern, m, table) && p.fallback == FallbackOf(m, table)
    && (forall c :: c in table ==>
          c in m.requested && BuildFragment(c, registry.capabilities[c], m) == Ok(IntentFragment(table[c])))
    && (forall b :: b in p.sensors ==>
          b.capability in m.requested && registry.capabilities[b.capability].permittedPins == [b.pin])
  }

  lemma PinsAreWired(p: Program, m: Manifest, registry: Registry, schema: Schema, table: map<Capability, IntentSpec>,
                     pin: int)
    requires PutTogether(p, m, registry, schema, table) && pin in p.PinsUsed()
    ensures pin in schema.pinout && !schema.Forbids(pin)
  {
    if b :| b in p.sensors && b.pin == pin {
      PermittedIsWired(m, registry, schema, b.capability, pin);
    } else {
      var s := PinIsEmitted(p, pin);
      SpecIsBuilt(p, m, registry, table, s);
      BuiltPin(s.capability, registry.capabilities[s.capability], m, s);
      PermittedIsWired(m, registry, schema, s.capability, pin);
    }
  }

  lemma PinIsEmitted(p: Program, pin: int) returns (s: IntentSpec)
    requires pin in p.PinsUsed() && forall b :: b in p.sensors ==> b.pin != pin
    ensures p.Emits(s) && s.pin == Some(pin)
  {
    if f :| f in p.fallback && f.pin == Some(pin) {
      s := f;
    } else {
      var r, e :| r in p.rules && e in r.emit && e.pin == Some(pin);
      var i :| 0 <= i < |p.rules| && p.rules[i] == r;
      s := e;
    }
  }

  lemma BuiltPin(c: Capability, entry: CapabilityEntry, m: Manifest, spec: IntentSpec)
    requires BuildFragment(c, entry, m) == Ok(IntentFragment(spec))
    ensures spec.pin.Some? ==> spec.pin.value in entry.permittedPins
  {
  }

  lemma RulesAreThere(p: PatternId, m: Manifest, table: map<Capability, IntentSpec>)
    requires Fits(p, m.requested) && Needed(p, m) <= table.Keys
    ensures RulesOf(p, m, table) != []
  {
    if p.MonitorOnly? {
      assert HeartbeatRule(m, table) != [];
    }
  }

  lemma PatternOf(m: Manifest)
    ensures SelectPattern(set n | n in m.requested).Some? <==> exists p: PatternId :: Fits(p, m.requested)
    ensures SelectPattern(set n | n in m.requested).Some? ==>
      Fits(SelectPattern(set n | n in m.requested).value, m.requested)
  {
    FitsIsCovers(ThermalCooling, m.requested);
    FitsIsCovers(MonitorOnly, m.requested);
    FitsIsCovers(SafeIdlePattern, m.requested);
    if p: PatternId :| Fits(p, m.requested) {
      assert p == ThermalCooling || p == MonitorOnly || p == SafeIdlePattern;
    }
  }

  lemma AssemblesAndChecks(h: Hash, m: Manifest, registry: Registry, schema: Schema, p: PatternId, fs: Fragments,
                           names: seq<Capability>)
    requires WellFormed(registry, schema) && m.controlPeriodSeconds > 0.0 && Validator.Valid(m, registry, schema)
    requires Fits(p, m.requested) && forall n :: n in names <==> n in m.requested
    requires forall n :: n in names ==> n in registry.capabilities
    requires FragmentsOf(names, m, registry) == Ok(fs)
    ensures var program := Assemble(h, m, registry, p, fs);
      program.Ok? && CheckPins(program.value, schema).Ok?
  {
    AllMustBuild(names, m, registry, schema);
    NeededIsRequested(m, registry, schema, p);
    RulesAreThere(p, m, fs.intents);
    FragmentsAreFaithful(names, m, registry);
    SensorsAreBound(names, m, registry, schema);
    var program := Assemble(h, m, registry, p, fs).value;
    forall pin | pin in program.PinsUsed()
      ensures pin in schema.pinout && !schema.Forbids(pin)
    {
      PinsAreWired(program, m, registry, schema, fs.intents, pin);
    }
  }

  lemma KnownOf(m: Manifest, registry: Registry, schema: Schema)
    requires Validator.Valid(m, registry, schema)
    ensures m.registryVersion == registry.version && forall n :: n in m.requested ==> n in registry.capabilities
  {
    assert !Validator.Justified(m, registry, schema, Validator.WrongRegistry);
    forall n | n in m.requested ensures n in registry.capabilities {
      assert !Validator.Justified(m, registry, schema, Validator.UnknownCapability(n));
    }
  }

  lemma CompileDecides(hash: Manifest -> Hash, m: Manifest, registry: Registry, schema: Schema, names: seq<Capability>)
    requires WellFormed(registry, schema) && m.controlPeriodSeconds > 0.0 && Validator.Valid(m, registry, schema)
    requires names == Costs.Sorted(m.requested)
    requires forall n :: n in names ==> n in registry.capabilities
    ensures Compile(hash, m, registry, schema).Ok? <==>
      FragmentsOf(names, m, registry).Ok? && SelectPattern(set n | n in m.requested).Some?
  {
    KnownOf(m, registry, schema);
    Costs.SortedKeepsElements(m.requested);
    PatternOf(m);
    var built, pattern := FragmentsOf(names, m, registry), SelectPattern(set n | n in m.requested);
    if built.Ok? && pattern.Some? {
      AssemblesAndChecks(hash(m), m, registry, schema, pattern.value, built.value, names);
    }
  }

  /** A valid manifest compiles if and only if one of the three patterns fits its request and the registry
      gives the template of every requested capability what it needs; nothing else can go wrong. */
  lemma CompilesExactlyWhen(hash: Manifest -> Hash, m: Manifest, registry: Registry, schema: Schema)
    requires WellFormed(registry, schema) && m.WellFormed() && Validator.Valid(m, registry, schema)
    ensures Compile(hash, m, registry, schema).Ok? <==>
      && (exists p: PatternId :: Fits(p, m.requested))
      && (forall n :: n in m.requested && n in registry.capabilities ==> Buildable(registry.capabilities[n]))
  {
    var names := Costs.Sorted(m.requested);
    KnownOf(m, registry, schema);
    Costs.SortedKeepsElements(m.requested);
    PatternOf(m);
    CompileDecides(hash, m, registry, schema, names);
    AllMustBuild(names, m, registry, schema);
  }

  /** Capabilities are built in the order of their names, and the first that cannot be built is named. */
  lemma {:induction false} TheFirstThatCannotBeBuilt(names: seq<Capability>, m: Manifest, registry: Registry,
                                                     schema: Schema)
    requires forall n :: n in names ==>
      n in registry.capabilities && EntryAgrees(registry.capabilities[n], registry, schema)
    ensures FragmentsOf(names, m, registry).Refused? ==>
      exists i :: 0 <= i < |names| && FragmentsOf(names, m, registry).error == TemplateCannotBuild(names[i])
                  && !Buildable(registry.capabilities[names[i]])
                  && forall j :: 0 <= j < i ==> Buildable(registry.capabilities[names[j]])
  {
    if names != [] {
      var k := |names| - 1;
      TheFirstThatCannotBeBuilt(names[..k], m, registry, schema);
      AllMustBuild(names[..k], m, registry, schema);
      BuildsWhenBuildable(names[k], registry.capabilities[names[k]], m, registry, schema);
      assert forall j :: 0 <= j < k ==> names[..k][j] == names[j];
      if FragmentsOf(names[..k], m, registry).Refused? {
        var i :| 0 <= i < k && FragmentsOf(names[..k], m, registry).error == TemplateCannotBuild(names[..k][i])
                 && !Buildable(registry.capabilities[names[..k][i]])
                 && forall j :: 0 <= j < i ==> Buildable(registry.capabilities[names[..k][j]]);
        assert !Buildable(registry.capabilities[names[i]]);
      } else if !Buildable(registry.capabilities[names[k]]) {
        assert FragmentsOf(names, m, registry).error == TemplateCannotBuild(names[k]);
      }
    }
  }

  lemma {:induction false} InsertIsInOrder(x: Capability, s: seq<Capability>)
    requires forall i, j :: 0 <= i < j < |s| ==> Costs.Before(s[i], s[j])
    ensures forall i, j :: 0 <= i < j < |Costs.Insert(x, s)| ==>
      Costs.Before(Costs.Insert(x, s)[i], Costs.Insert(x, s)[j])
  {
    var t := Costs.Insert(x, s);
    if s == [] {
    } else if Costs.Before(x, s[0]) {
      forall i, j | 0 <= i < j < |t| ensures Costs.Before(t[i], t[j]) {
        if i == 0 && j > 1 {
          Costs.BeforeIsTransitive(x, s[0], s[j - 1]);
        }
      }
    } else {
      var rest := s[1..];
      assert forall i :: 0 <= i < |rest| ==> rest[i] == s[i + 1];
      InsertIsInOrder(x, rest);
      Costs.InsertKeepsElements(x, rest);
      Costs.BeforeIsTotal(x, s[0]);
      forall i, j | 0 <= i < j < |t| ensures Costs.Before(t[i], t[j]) {
        if i == 0 {
          assert t[j] in multiset(Costs.Insert(x, rest));
          assert t[j] == x || t[j] in rest;
        }
      }
    }
  }

  lemma {:induction false} SortedIsInOrder(names: seq<Capability>)
    ensures forall i, j :: 0 <= i < j < |Costs.Sorted(names)| ==>
      Costs.Before(Costs.Sorted(names)[i], Costs.Sorted(names)[j])
  {
    if names != [] {
      SortedIsInOrder(names[1..]);
      InsertIsInOrder(names[0], Costs.Sorted(names[1..]));
    }
  }
}
