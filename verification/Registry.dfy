/** The capability registry (what may be built) and the hardware schema (what is wired). */
module Registries {
  import opened Names
  import opened Manifests

  datatype CapabilityKind = SensorKind | ActuatorKind | TelemetryKind | SafetyKind

  datatype Template = SensorRead | ActuatorSetState | TelemetryEmit | SafeIdle

  /** A telemetry template's `event` parameter: absent, the manifest's own event, or a fixed label. */
  datatype EventParam = NoEvent | TriggerEventBinding | FixedEvent(event: Event)

  datatype Precondition =
    | PinPresentInSchema
    | PinNotForbidden
    | HardwareTypeMatches
    | ActuatorDeclared
    | MetricsAvailable

  datatype ActuatorLimits = ActuatorLimits(
    actuator: Actuator,
    level: Level,
    currentMa: real,
    maxTransitionsPerMinute: int,
    minHoldSeconds: real)

  datatype CapabilityEntry = CapabilityEntry(
    kind: CapabilityKind,
    compatibleHardware: seq<string>,
    permittedPins: seq<int>,
    metric: Option<Metric>,
    actuator: Option<Actuator>,
    cpuMsPerStep: real,
    memoryKb: int,
    limits: Option<ActuatorLimits>,
    template: Template,
    event: EventParam,
    preconditions: seq<Precondition>,
    requiresMetrics: seq<Metric>,
    fallbackSafe: bool)

  datatype ActuatorSpec = ActuatorSpec(
    connectedDevice: string,
    levels: seq<Level>,
    defaultLevel: Level,
    safeLevelWhenHot: Level)

  /** `actuatorOrder` is the iteration order of the registry's actuator table. */
  datatype Registry = Registry(
    version: string,
    contentHash: Hash,
    metrics: set<Metric>,
    actuatorOrder: seq<Actuator>,
    actuators: map<Actuator, ActuatorSpec>,
    capabilities: map<Capability, CapabilityEntry>)
  {
    predicate OrderedTable() {
      && Distinct(actuatorOrder)
      && (forall i :: 0 <= i < |actuatorOrder| ==> actuatorOrder[i] in actuators)
      && (forall a :: a in actuators ==> a in actuatorOrder)
    }
  }

  datatype Schema = Schema(
    deviceId: string,
    pinout: map<int, string>,
    forbidden: set<int>,
    maxCurrentMa: Option<real>)
  {
    predicate Forbids(pin: int) { pin in forbidden }
  }

  /** An actuator entry whose declarations agree with each other, with the actuator table
      and with the schema's current limit. */
  predicate ActuatorEntryAgrees(entry: CapabilityEntry, registry: Registry, schema: Schema)
    requires entry.limits.Some?
  {
    var limits := entry.limits.value;
    && entry.actuator == Some(limits.actuator)
    && limits.actuator in registry.actuators
    && limits.level in registry.actuators[limits.actuator].levels
    && entry.compatibleHardware == [registry.actuators[limits.actuator].connectedDevice]
    && HardwareTypeMatches in entry.preconditions
    && limits.maxTransitionsPerMinute > 0
    && limits.minHoldSeconds >= 0.0
    && (schema.maxCurrentMa.Some? ==> limits.currentMa <= schema.maxCurrentMa.value)
  }

  /** Template, kind and limits of one entry tell the same story. */
  predicate EntryAgrees(entry: CapabilityEntry, registry: Registry, schema: Schema) {
    && (entry.kind.SensorKind? <==> entry.template.SensorRead?)
    && (entry.kind.ActuatorKind? <==> entry.template.ActuatorSetState?)
    && (entry.kind.TelemetryKind? <==> entry.template.TelemetryEmit?)
    && (entry.kind.SafetyKind? <==> entry.template.SafeIdle?)
    && (entry.kind.ActuatorKind? <==> entry.limits.Some?)
    && (entry.limits.Some? ==> ActuatorEntryAgrees(entry, registry, schema))
    && entry.cpuMsPerStep >= 0.0
    && entry.memoryKb >= 0
  }

  /** The registry is internally consistent and means by its fan and heartbeat entries what
      the compiler's patterns take them to mean. */
  predicate WellFormed(registry: Registry, schema: Schema) {
    && registry.OrderedTable()
    && registry.actuators.Keys == {Fan}
    && registry.actuators[Fan].safeLevelWhenHot == On
    && (forall c :: c in registry.capabilities ==> EntryAgrees(registry.capabilities[c], registry, schema))
    && Drives(registry, FanOn, On)
    && Drives(registry, FanOff, Off)
    && (forall c :: c in registry.capabilities && c in {EmitHeartbeat, EmitContextEvent, EmitCriticalEvent}
          ==> registry.capabilities[c].kind.TelemetryKind?)
    && (EmitHeartbeat in registry.capabilities ==> registry.capabilities[EmitHeartbeat].event == FixedEvent(Heartbeat))
    && (EnterSafeIdle in registry.capabilities ==> registry.capabilities[EnterSafeIdle].kind.SafetyKind?)
    && (ReadTemperature in registry.capabilities ==> registry.capabilities[ReadTemperature].kind.SensorKind?)
  }

  predicate Drives(registry: Registry, name: Capability, level: Level) {
    name in registry.capabilities ==>
      var entry := registry.capabilities[name];
      entry.limits.Some? && entry.limits.value.actuator == Fan && entry.limits.value.level == level
  }
}

/** The registry and schema files the repository ships. */
module ShippedRegistry {
  import opened Names
  import opened Registries

  const PRESENT_AND_WIRED: seq<Precondition> := [PinPresentInSchema, PinNotForbidden, HardwareTypeMatches]

  function Sensor(metric: Metric, hardware: string, pin: int, cpu: real, memory: int): CapabilityEntry {
    CapabilityEntry(SensorKind, [hardware], [pin], Some(metric), None, cpu, memory, None, SensorRead, NoEvent,
                    PRESENT_AND_WIRED, [], false)
  }

  function FanEntry(level: Level, currentMa: real, fallbackSafe: bool): CapabilityEntry {
    CapabilityEntry(ActuatorKind, ["Relay_Fan"], [27], None, Some(Fan), 0.2, 4,
                    Some(ActuatorLimits(Fan, level, currentMa, 12, 5.0)), ActuatorSetState, NoEvent,
                    PRESENT_AND_WIRED + [ActuatorDeclared, MetricsAvailable], [TemperatureC], fallbackSafe)
  }

  function Telemetry(event: EventParam, needs: seq<Metric>): CapabilityEntry {
    CapabilityEntry(TelemetryKind, [], [], None, None, 0.1, 2, None, TelemetryEmit, event, [], needs, false)
  }

  const REGISTRY := Registry(
    "1.0.0",
    "capability_registry_v1",
    {TemperatureC, DistanceCm},
    [Fan],
    map[Fan := ActuatorSpec("Relay_Fan", [On, Off], Off, On)],
    map[
      ReadTemperature := Sensor(TemperatureC, "DHT11", 17, 0.5, 8),
      ReadDistance := Sensor(DistanceCm, "Lidar_X2", 22, 2.0, 16),
      FanOn := FanEntry(On, 12.0, true),
      FanOff := FanEntry(Off, 0.0, false),
      EmitHeartbeat := Telemetry(FixedEvent(Heartbeat), []),
      EmitContextEvent := Telemetry(TriggerEventBinding, []),
      EmitCriticalEvent := Telemetry(FixedEvent(NamedEvent("CRITICAL_TEMPERATURE")), [TemperatureC]),
      EnterSafeIdle := ENTRY_SAFE_IDLE
    ])

  const SCHEMA := Schema(
    "pi_node_alpha",
    map[17 := "DHT11", 27 := "Relay_Fan", 22 := "Lidar_X2"],
    {0, 1},
    Some(16.0))

  const ENTRY_SAFE_IDLE :=
    CapabilityEntry(SafetyKind, [], [], None, None, 0.1, 2, None, SafeIdle, NoEvent, [], [], true)

  lemma SensorsAgree(metric: Metric, hardware: string, pin: int, cpu: real, memory: int)
    requires cpu >= 0.0 && memory >= 0
    ensures EntryAgrees(Sensor(metric, hardware, pin, cpu, memory), REGISTRY, SCHEMA)
  {
  }

  lemma FanEntriesAgree(level: Level, currentMa: real, fallbackSafe: bool)
    requires level == On || level == Off
    requires currentMa <= 16.0
    ensures EntryAgrees(FanEntry(level, currentMa, fallbackSafe), REGISTRY, SCHEMA)
  {
    var entry := FanEntry(level, currentMa, fallbackSafe);
    assert entry.preconditions[2] == HardwareTypeMatches;
    var spec := REGISTRY.actuators[Fan];
    assert spec.levels[0] == On && spec.levels[1] == Off;
  }

  lemma TelemetryAgrees(event: EventParam, needs: seq<Metric>)
    ensures EntryAgrees(Telemetry(event, needs), REGISTRY, SCHEMA)
  {
  }

  /** Every hypothesis this project places on a registry is met by the one that ships. */
  lemma ShippedFilesAreWellFormed()
    ensures WellFormed(REGISTRY, SCHEMA)
  {
    assert REGISTRY.actuatorOrder[0] == Fan;
    SensorsAgree(TemperatureC, "DHT11", 17, 0.5, 8);
    SensorsAgree(DistanceCm, "Lidar_X2", 22, 2.0, 16);
    FanEntriesAgree(On, 12.0, true);
    FanEntriesAgree(Off, 0.0, false);
    TelemetryAgrees(FixedEvent(Heartbeat), []);
    TelemetryAgrees(TriggerEventBinding, []);
    TelemetryAgrees(FixedEvent(NamedEvent("CRITICAL_TEMPERATURE")), [TemperatureC]);
    assert EntryAgrees(ENTRY_SAFE_IDLE, REGISTRY, SCHEMA);
  }
}
