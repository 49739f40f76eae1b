/** Behaviour manifests: typed comparisons, one-level condition groups, and the proposal itself. */
module Manifests {
  import opened Names
  import Config

  datatype Operator = GE | LE | GT | LT | EQ | NE

  predicate Compare(op: Operator, reading: real, threshold: real) {
    match op
    case GE => reading >= threshold
    case LE => reading <= threshold
    case GT => reading > threshold
    case LT => reading < threshold
    case EQ => reading == threshold
    case NE => reading != threshold
  }

  datatype Condition = Condition(metric: Metric, op: Operator, value: real) {
    /** A missing metric is false, never an error. */
    predicate Evaluate(metrics: Metrics) {
      metric in metrics && Compare(op, metrics[metric], value)
    }
  }

  datatype Trigger =
    | Single(condition: Condition)
    | AllOf(terms: seq<Condition>)
    | AnyOf(terms: seq<Condition>)
  {
    function Conditions(): seq<Condition> {
      match this
      case Single(c) => [c]
      case AllOf(ts) => ts
      case AnyOf(ts) => ts
    }

    predicate Evaluate(metrics: Metrics) {
      match this
      case Single(c) => c.Evaluate(metrics)
      case AllOf(ts) => forall i :: 0 <= i < |ts| ==> ts[i].Evaluate(metrics)
      case AnyOf(ts) => exists i :: 0 <= i < |ts| && ts[i].Evaluate(metrics)
    }

    /** What parsing enforces on a condition group. */
    predicate WellFormed() {
      1 <= |Conditions()| <= Config.MANIFEST_MAX_CONDITION_TERMS
    }
  }

  datatype FallbackKind = FallbackSafeIdle | FallbackHoldCooling | FallbackRestorePrevious

  datatype ResourceBudget = ResourceBudget(
    maxCpuMsPerStep: real,
    maxMemoryKb: int,
    maxActuatorTransitionsPerMinute: int)

  datatype Manifest = Manifest(
    version: string,
    manifestId: string,
    deviceId: string,
    eventId: string,
    triggerEvent: Event,
    currentFirmwareHash: Hash,
    registryVersion: string,
    requested: seq<Capability>,
    sensorInputs: seq<Metric>,
    actuatorOutputs: seq<Actuator>,
    activation: Trigger,
    recovery: Trigger,
    maximumDurationSeconds: int,
    controlPeriodSeconds: real,
    budget: ResourceBudget,
    fallback: FallbackKind)
  {
    function MetricsUsed(): set<Metric> {
      (set c | c in activation.Conditions() :: c.metric) + (set c | c in recovery.Conditions() :: c.metric)
    }

    /** What parsing has already rejected before any check of this project runs. */
    predicate WellFormed() {
      && activation.WellFormed()
      && recovery.WellFormed()
      && 1 <= |requested| <= Config.MANIFEST_MAX_CAPABILITIES
      && Distinct(requested)
      && Distinct(sensorInputs)
      && Distinct(actuatorOutputs)
      && maximumDurationSeconds > 0
      && controlPeriodSeconds > 0.0
      && budget.maxCpuMsPerStep > 0.0
      && budget.maxMemoryKb > 0
      && budget.maxActuatorTransitionsPerMinute > 0
    }
  }

  predicate Distinct<T(==)>(s: seq<T>) {
    forall i, j :: 0 <= i < j < |s| ==> s[i] != s[j]
  }
}
