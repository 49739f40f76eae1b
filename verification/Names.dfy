/** The closed vocabulary of the system: every name the code mentions literally is a
    constructor of its own, and every other name is carried by an `Other...` constructor. */
module Names {

  datatype Option<+T> = None | Some(value: T)

  datatype Result<+T, +E> = Ok(value: T) | Refused(error: E)

  datatype Metric = TemperatureC | DistanceCm | OtherMetric(name: string)

  datatype Actuator = Fan | OtherActuator(name: string)

  datatype Level = On | Off | OtherLevel(name: string)

  datatype Event = Heartbeat | NamedEvent(name: string)

  datatype Capability =
    | ReadTemperature
    | ReadDistance
    | FanOn
    | FanOff
    | EmitHeartbeat
    | EmitContextEvent
    | EmitCriticalEvent
    | EnterSafeIdle
    | OtherCapability(name: string)

  type Hash = string

  /** What a controller and the supervisor are handed each tick. */
  type Metrics = map<Metric, real>

  function Lookup<K, V>(m: map<K, V>, k: K): Option<V> {
    if k in m then Some(m[k]) else None
  }
}

/** Tunables that the source reads from its configuration, at their default values. */
module Config {
  const MANIFEST_VERSION := "1.0"
  const MAX_LEASE_SECONDS := 900
  const MIN_CONTROL_PERIOD_SECONDS := 0.1
  const MAX_CONTROL_PERIOD_SECONDS := 10.0
  const MANIFEST_MAX_CAPABILITIES := 8
  const MANIFEST_MAX_CONDITION_TERMS := 4
  const EMERGENCY_TEMP_C := 95.0
  const SAFE_STATE_COOLING_TEMP_C := 70.0
  const SAFE_STATE_HYSTERESIS_C := 10.0
  const LOCAL_HEARTBEAT_MISS_LIMIT := 3
  const LOCAL_FAILURE_LIMIT := 3
  const PROBATION_HEALTHY_TICKS := 5
  const VERIFY_MAX_ACTUATOR_TRANSITIONS_PER_MIN := 12
}
