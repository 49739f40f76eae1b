/** The compiled artifact and the intents it emits. */
module Programs {
  import opened Names
  import opened Manifests

  datatype IntentKind = ActuatorIntent | TelemetryIntent | SafetyIntent

  datatype IntentSpec = IntentSpec(
    capability: Capability,
    kind: IntentKind,
    actuator: Option<Actuator>,
    level: Option<Level>,
    pin: Option<int>,
    event: Option<Event>,
    currentMa: Option<real>)
  {
    /** The emissions that are subject to no-op suppression and minimum hold. */
    predicate Commands() { kind.ActuatorIntent? && actuator.Some? }
  }

  /** One emitted intent: the specification it came from and the tick it was emitted at. */
  datatype Intent = Intent(spec: IntentSpec, tick: int)

  datatype SensorBinding = SensorBinding(capability: Capability, metric: Metric, pin: int)

  datatype RuleId = RActivate | RRecover | RCritical | RContext | RHeartbeat | RIdle

  datatype Rule = Rule(id: RuleId, condition: Option<Trigger>, emit: seq<IntentSpec>)

  /** A rule without a condition holds on every step. */
  predicate Holds(condition: Option<Trigger>, metrics: Metrics) {
    condition.Some? ==> condition.value.Evaluate(metrics)
  }

  datatype ProgramBudget = ProgramBudget(
    maxCpuMsPerStep: real,
    maxMemoryKb: int,
    maxActuatorTransitionsPerMinute: int,
    estimatedCpuMsPerStep: real,
    estimatedMemoryKb: int)

  datatype PatternId = ThermalCooling | MonitorOnly | SafeIdlePattern

  datatype Program = Program(
    pattern: PatternId,
    manifestId: string,
    manifestHash: Hash,
    eventId: string,
    deviceId: string,
    sourceFirmwareHash: Hash,
    registryVersion: string,
    registryHash: Hash,
    controlPeriodSeconds: real,
    maximumDurationSeconds: int,
    emergencyTempC: real,
    sensors: seq<SensorBinding>,
    rules: seq<Rule>,
    fallback: seq<IntentSpec>,
    fallbackBehavior: FallbackKind,
    budget: ProgramBudget,
    minHoldTicks: int)
  {
    /** Every intent specification a run of this program can emit. */
    ghost predicate Emits(spec: IntentSpec) {
      spec in fallback || exists i :: 0 <= i < |rules| && spec in rules[i].emit
    }

    function CapabilitiesUsed(): set<Capability> {
      (set b | b in sensors :: b.capability)
      + (set r, s | r in rules && s in r.emit :: s.capability)
      + (set s | s in fallback :: s.capability)
    }

    function PinsUsed(): set<int> {
      (set b | b in sensors :: b.pin)
      + (set r, s | r in rules && s in r.emit && s.pin.Some? :: s.pin.value)
      + (set s | s in fallback && s.pin.Some? :: s.pin.value)
    }
  }
}
