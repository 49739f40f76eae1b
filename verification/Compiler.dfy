/** Templates, patterns and the manifest compiler. */
module Compiler {
  import opened Names
  import opened Manifests
  import opened Registries
  import opened Programs
  import opened Costs
  import Config

  datatype Refusal =
    | RegistryMismatch
    | UnknownNames
    | TemplateCannotBuild(name: Capability)
    | NoPatternCovers
    | FragmentMissing
    | NoRules
    | PinRefused

  datatype Fragment = SensorFragment(binding: SensorBinding) | IntentFragment(spec: IntentSpec)

  datatype Fragments = Fragments(sensors: seq<SensorBinding>, intents: map<Capability, IntentSpec>)

  // ----- Templates -----

  function ResolveEvent(event: EventParam, m: Manifest): Option<Event> {
    match event
    case NoEvent => None
    case TriggerEventBinding => Some(m.triggerEvent)
    case FixedEvent(e) => Some(e)
  }

  function BuildFragment(name: Capability, entry: CapabilityEntry, m: Manifest): Result<Fragment, Refusal> {
    match entry.template
    case SensorRead =>
      if entry.metric.None? || |entry.permittedPins| != 1 then Refused(TemplateCannotBuild(name))
      else Ok(SensorFragment(SensorBinding(name, entry.metric.value, entry.permittedPins[0])))
    case ActuatorSetState =>
      if entry.limits.None? || |entry.permittedPins| != 1 then Refused(TemplateCannotBuild(name))
      else
        var limits := entry.limits.value;
        Ok(IntentFragment(IntentSpec(name, ActuatorIntent, Some(limits.actuator), Some(limits.level),
                                     Some(entry.permittedPins[0]), None, Some(limits.currentMa))))
    case TelemetryEmit =>
      if ResolveEvent(entry.event, m).None? then Refused(TemplateCannotBuild(name))
      else Ok(IntentFragment(IntentSpec(name, TelemetryIntent, None, None, None,
                                        ResolveEvent(entry.event, m), None)))
    case SafeIdle =>
      Ok(IntentFragment(IntentSpec(name, SafetyIntent, None, None, None, None, None)))
  }

  function AddFragment(fs: Fragments, name: Capability, fragment: Fragment): Fragments {
    match fragment
    case SensorFragment(binding) => fs.(sensors := fs.sensors + [binding])
    case IntentFragment(spec) => fs.(intents := fs.intents[name := spec])
  }

  /** The fragments of a list of capabilities, in order, or the first template that refuses. */
  function FragmentsOf(names: seq<Capability>, m: Manifest, registry: Registry): Result<Fragments, Refusal>
    requires forall n :: n in names ==> n in registry.capabilities
  {
    if names == [] then Ok(Fragments([], map[]))
    else
      var before := FragmentsOf(names[..|names| - 1], m, registry);
      if before.Refused? then before
      else
        var name := names[|names| - 1];
        var fragment := BuildFragment(name, registry.capabilities[name], m);
        if fragment.Refused? then Refused(fragment.error)
        else Ok(AddFragment(before.value, name, fragment.value))
  }

  method BuildFragments(m: Manifest, registry: Registry) returns (r: Result<Fragments, Refusal>)
    requires forall n :: n in m.requested ==> n in registry.capabilities
    ensures forall n :: n in Sorted(m.requested) ==> n in registry.capabilities
    ensures r == FragmentsOf(Sorted(m.requested), m, registry)
  {
    var names := Sorted(m.requested);
    SortedKeepsElements(m.requested);
    var sensors: seq<SensorBinding>, intents: map<Capability, IntentSpec> := [], map[];
    for i := 0 to |names|
      invariant Ok(Fragments(sensors, intents)) == FragmentsOf(names[..i], m, registry)
    {
      var fragment := BuildFragment(names[i], registry.capabilities[names[i]], m);
      OneMoreFragment(names, i, m, registry);
      if fragment.Refused? {
        RefusalPersists(names, i + 1, m, registry);
        return Refused(fragment.error);
      }
      if fragment.value.SensorFragment? {
        sensors := sensors + [fragment.value.binding];
      } else {
        intents := intents[names[i] := fragment.value.spec];
      }
    }
    assert names[..|names|] == names;
    r := Ok(Fragments(sensors, intents));
  }

  lemma OneMoreFragment(names: seq<Capability>, i: nat, m: Manifest, registry: Registry)
    requires i < |names|
    requires forall n :: n in names ==> n in registry.capabilities
    requires FragmentsOf(names[..i], m, registry).Ok?
    ensures FragmentsOf(names[..i + 1], m, registry) ==
      var fragment := BuildFragment(names[i], registry.capabilities[names[i]], m);
      if fragment.Refused? then Refused(fragment.error)
      else Ok(AddFragment(FragmentsOf(names[..i], m, registry).value, names[i], fragment.value))
  {
    assert names[..i + 1][..i] == names[..i];
  }

  lemma {:induction false} RefusalPersists(names: seq<Capability>, i: nat, m: Manifest, registry: Registry)
    requires i <= |names|
    requires forall n :: n in names ==> n in registry.capabilities
    requires FragmentsOf(names[..i], m, registry).Refused?
    ensures FragmentsOf(names, m, registry) == FragmentsOf(names[..i], m, registry)
  {
    if i == |names| {
      assert names[..i] == names;
    } else {
      assert names[..|names| - 1][..i] == names[..i];
      RefusalPersists(names[..|names| - 1], i, m, registry);
    }
  }

  // ----- Patterns -----

  function Required(p: PatternId): set<Capability> {
    match p
    case ThermalCooling => {ReadTemperature, FanOn, FanOff}
    case MonitorOnly => {ReadTemperature, EmitHeartbeat}
    case SafeIdlePattern => {EnterSafeIdle}
  }

  function Optional(p: PatternId): set<Capability> {
    match p
    case ThermalCooling => {EmitHeartbeat, EmitContextEvent, EmitCriticalEvent, EnterSafeIdle}
    case MonitorOnly => {EmitContextEvent, EmitCriticalEvent, ReadDistance, EnterSafeIdle}
    case SafeIdlePattern => {EmitHeartbeat, EmitCriticalEvent, ReadTemperature}
  }

  predicate Covers(p: PatternId, requested: set<Capability>) {
    Required(p) <= requested && requested <= Required(p) + Optional(p)
  }

  /** The first pattern, in this order, that fits the request. */
  function SelectPattern(requested: set<Capability>): Option<PatternId> {
    if Covers(ThermalCooling, requested) then Some(ThermalCooling)
    else if Covers(MonitorOnly, requested) then Some(MonitorOnly)
    else if Covers(SafeIdlePattern, requested) then Some(SafeIdlePattern)
    else None
  }

  predicate HasCritical(m: Manifest) {
    EmitCriticalEvent in m.requested && TemperatureC in m.sensorInputs
  }

  /** The capabilities whose intents a pattern's rules and the fallback look up. */
  function Needed(p: PatternId, m: Manifest): set<Capability> {
    (match p
     case ThermalCooling => {FanOn, FanOff}
     case MonitorOnly => {}
     case SafeIdlePattern => {EnterSafeIdle})
    + (if !p.SafeIdlePattern? && HasCritical(m) then {EmitCriticalEvent} else {})
    + (if !p.SafeIdlePattern? && EmitContextEvent in m.requested then {EmitContextEvent} else {})
    + (if EmitHeartbeat in m.requested then {EmitHeartbeat} else {})
    + (match m.fallback
       case FallbackSafeIdle => {EnterSafeIdle}
       case FallbackHoldCooling => {FanOn}
       case FallbackRestorePrevious => {})
  }

  function CriticalRule(m: Manifest, intents: map<Capability, IntentSpec>): seq<Rule>
    requires HasCritical(m) ==> EmitCriticalEvent in intents
  {
    if HasCritical(m)
    then [Rule(RCritical, Some(Single(Condition(TemperatureC, GE, Config.EMERGENCY_TEMP_C))),
               [intents[EmitCriticalEvent]])]
    else []
  }

  function ContextRule(m: Manifest, intents: map<Capability, IntentSpec>): seq<Rule>
    requires EmitContextEvent in m.requested ==> EmitContextEvent in intents
  {
    if EmitContextEvent in m.requested
    then [Rule(RContext, Some(m.activation), [intents[EmitContextEvent]])] else []
  }

  function HeartbeatRule(m: Manifest, intents: map<Capability, IntentSpec>): seq<Rule>
    requires EmitHeartbeat in m.requested ==> EmitHeartbeat in intents
  {
    if EmitHeartbeat in m.requested then [Rule(RHeartbeat, None, [intents[EmitHeartbeat]])] else []
  }

  function RulesOf(p: PatternId, m: Manifest, intents: map<Capability, IntentSpec>): seq<Rule>
    requires Needed(p, m) <= intents.Keys
  {
    match p
    case ThermalCooling =>
      [Rule(RActivate, Some(m.activation), [intents[FanOn]]), Rule(RRecover, Some(m.recovery), [intents[FanOff]])]
      + (CriticalRule(m, intents) + ContextRule(m, intents) + HeartbeatRule(m, intents))
    case MonitorOnly =>
      ContextRule(m, intents) + CriticalRule(m, intents) + HeartbeatRule(m, intents)
    case SafeIdlePattern =>
      [Rule(RIdle, None, [intents[EnterSafeIdle]])] + HeartbeatRule(m, intents)
  }

  function FallbackOf(m: Manifest, intents: map<Capability, IntentSpec>): seq<IntentSpec>
    requires m.fallback.FallbackSafeIdle? ==> EnterSafeIdle in intents
    requires m.fallback.FallbackHoldCooling? ==> FanOn in intents
  {
    match m.fallback
    case FallbackSafeIdle => [intents[EnterSafeIdle]]
    case FallbackHoldCooling => [intents[FanOn]]
    case FallbackRestorePrevious => []
  }

  // ----- Budget and hold -----

  function BudgetOf(m: Manifest, registry: Registry): ProgramBudget {
    ProgramBudget(m.budget.maxCpuMsPerStep, m.budget.maxMemoryKb, m.budget.maxActuatorTransitionsPerMinute,
                  TotalCpu(m.requested, registry), TotalMemory(m.requested, registry))
  }

  function Ceiling(x: real): int { -((-x).Floor) }

  function MinHoldTicks(m: Manifest, registry: Registry): int
    requires m.controlPeriodSeconds > 0.0
  {
    match LongestHold(m.requested, registry)
    case None => 0
    case Some(hold) =>
      var ticks := Ceiling(hold / m.controlPeriodSeconds);
      if ticks >= 1 then ticks else 1
  }

  // ----- Entry point -----

  /** Rules, fallback, budget and hold put together for one pattern. */
  function Assemble(manifestHash: Hash, m: Manifest, registry: Registry, pattern: PatternId, fs: Fragments)
    : Result<Program, Refusal>
    requires m.controlPeriodSeconds > 0.0
  {
    if !(Needed(pattern, m) <= fs.intents.Keys) then Refused(FragmentMissing)
    else
      var rules := RulesOf(pattern, m, fs.intents);
      if rules == [] then Refused(NoRules)
      else
        Ok(Program(
             pattern, m.manifestId, manifestHash, m.eventId, m.deviceId, m.currentFirmwareHash,
             registry.version, registry.contentHash, m.controlPeriodSeconds, m.maximumDurationSeconds,
             Config.EMERGENCY_TEMP_C, fs.sensors, rules, FallbackOf(m, fs.intents),
             m.fallback, BudgetOf(m, registry), MinHoldTicks(m, registry)))
  }

  /** Every pin the program references is wired and not forbidden. */
  function CheckPins(p: Program, schema: Schema): Result<Program, Refusal> {
    if exists pin :: pin in p.PinsUsed() && (schema.Forbids(pin) || pin !in schema.pinout)
    then Refused(PinRefused)
    else Ok(p)
  }

  /** `manifestHash` is the canonical content hash of a manifest, left uninterpreted. */
  function Compile(manifestHash: Manifest -> Hash, m: Manifest, registry: Registry, schema: Schema)
    : Result<Program, Refusal>
    requires m.controlPeriodSeconds > 0.0
  {
    if m.registryVersion != registry.version then Refused(RegistryMismatch)
    else if exists n :: n in m.requested && n !in registry.capabilities then Refused(UnknownNames)
    else
      SortedKeepsElements(m.requested);
      var built := FragmentsOf(Sorted(m.requested), m, registry);
      if built.Refused? then Refused(built.error)
      else
        var pattern := SelectPattern(set n | n in m.requested);
        if pattern.None? then Refused(NoPatternCovers)
        else
          var program := Assemble(manifestHash(m), m, registry, pattern.value, built.value);
          if program.Refused? then program else CheckPins(program.value, schema)
  }
}
