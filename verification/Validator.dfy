/** The manifest validator. Every check appends complaints to a list; `Justified` says, for each
    complaint, exactly when it is due, and each check is proved to append all due ones and no other. */
module Validator {
  import opened Names
  import opened Manifests
  import opened Registries
  import opened Costs
  import Config

  datatype Complaint =
    | UnsupportedVersion
    | WrongDevice
    | WrongRegistry
    | UnknownCapability(name: Capability)
    | InputNotRegistered(metric: Metric)
    | InputNotProduced(metric: Metric)
    | ReadsUndeclared(metric: Metric)
    | OutputNotRegistered(actuator: Actuator)
    | OutputNotDriven(actuator: Actuator)
    | DrivesUndeclared(actuator: Actuator)
    | PinMissing(name: Capability, pin: int)
    | PinForbidden(name: Capability, pin: int)
    | WrongHardware(name: Capability, pin: int)
    | ActuatorNotDeclared(name: Capability)
    | MetricNotSensed(name: Capability, metric: Metric)
    | SweepForbiddenPin(name: Capability, pin: int)
    | SweepAbsentPin(name: Capability, pin: int)
    | LeaseTooLong
    | PeriodOutOfRange
    | PeriodBeyondLease
    | Overlap(left: Condition, right: Condition)
    | FallbackNotRequested
    | FallbackNotSafe
    | CpuOverBudget
    | MemoryOverBudget
    | TransitionsOverCeiling
    | TransitionsOverLimit(name: Capability)

  function FallbackRequirement(kind: FallbackKind): Option<Capability> {
    match kind
    case FallbackSafeIdle => Some(EnterSafeIdle)
    case FallbackHoldCooling => Some(FanOn)
    case FallbackRestorePrevious => None
  }

  /** Metrics produced by the requested capabilities. */
  function Produced(m: Manifest, registry: Registry): set<Metric> {
    set c | c in m.requested && c in registry.capabilities && registry.capabilities[c].metric.Some?
      :: registry.capabilities[c].metric.value
  }

  /** Actuators driven by the requested capabilities. */
  function Driven(m: Manifest, registry: Registry): set<Actuator> {
    set c | c in m.requested && c in registry.capabilities && registry.capabilities[c].actuator.Some?
      :: registry.capabilities[c].actuator.value
  }

  // ----- Can two comparisons hold at once? -----

  const EPSILON := 0.000000001

  /** The nine candidate readings tried around two thresholds. */
  function Probes(l: real, r: real): seq<real> {
    var low := if l <= r then l else r;
    var high := if l <= r then r else l;
    [l, r, l + EPSILON, l - EPSILON, r + EPSILON, r - EPSILON, low - 1.0, high + 1.0, (l + r) / 2.0]
  }

  predicate BothHold(left: Condition, right: Condition, reading: real) {
    Compare(left.op, reading, left.value) && Compare(right.op, reading, right.value)
  }

  predicate SatisfiableTogether(left: Condition, right: Condition) {
    left.metric != right.metric ||
    exists i :: 0 <= i < 9 && BothHold(left, right, Probes(left.value, right.value)[i])
  }

  /** Nine probes decide satisfiability exactly: some probe satisfies both comparisons if and only
      if some real reading does. A reading lies in the same place relative to the two thresholds
      as one of the probes, and the operators see nothing else. */
  lemma ProbesAreExact(left: Condition, right: Condition)
    requires left.metric == right.metric
    ensures SatisfiableTogether(left, right) <==> exists x: real :: BothHold(left, right, x)
  {
    var probes := Probes(left.value, right.value);
    if x: real :| BothHold(left, right, x) {
      var place :=
        if x == left.value then 0
        else if x == right.value then 1
        else if x < left.value && x < right.value then 6
        else if x > left.value && x > right.value then 7
        else 8;
      assert BothHold(left, right, probes[place]);
    }
  }

  /** Everything one manifest can be faulted for against one registry and one schema. */
  predicate Justified(m: Manifest, registry: Registry, schema: Schema, complaint: Complaint) {
    match complaint
    case UnsupportedVersion => m.version != Config.MANIFEST_VERSION
    case WrongDevice => m.deviceId != schema.deviceId
    case WrongRegistry => m.registryVersion != registry.version
    case UnknownCapability(c) => c in m.requested && c !in registry.capabilities
    case InputNotRegistered(x) => x in m.sensorInputs && x !in registry.metrics
    case InputNotProduced(x) => x in m.sensorInputs && x in registry.metrics && x !in Produced(m, registry)
    case ReadsUndeclared(x) => x in m.MetricsUsed() && x !in m.sensorInputs
    case OutputNotRegistered(a) => a in m.actuatorOutputs && a !in registry.actuators
    case OutputNotDriven(a) => a in m.actuatorOutputs && a in registry.actuators && a !in Driven(m, registry)
    case DrivesUndeclared(a) => a in Driven(m, registry) && a !in m.actuatorOutputs
    case PinMissing(c, pin) =>
      Declares(m, registry, c, PinPresentInSchema) && pin in registry.capabilities[c].permittedPins
      && pin !in schema.pinout
    case PinForbidden(c, pin) =>
      Declares(m, registry, c, PinNotForbidden) && pin in registry.capabilities[c].permittedPins
      && schema.Forbids(pin)
    case WrongHardware(c, pin) =>
      Declares(m, registry, c, HardwareTypeMatches) && pin in registry.capabilities[c].permittedPins
      && pin in schema.pinout && schema.pinout[pin] !in registry.capabilities[c].compatibleHardware
    case ActuatorNotDeclared(c) =>
      Declares(m, registry, c, ActuatorDeclared) && registry.capabilities[c].actuator.Some?
      && registry.capabilities[c].actuator.value !in m.actuatorOutputs
    case MetricNotSensed(c, x) =>
      Declares(m, registry, c, MetricsAvailable) && x in registry.capabilities[c].requiresMetrics
      && x !in m.sensorInputs
    case SweepForbiddenPin(c, pin) =>
      c in m.requested && c in registry.capabilities && pin in registry.capabilities[c].permittedPins
      && schema.Forbids(pin)
    case SweepAbsentPin(c, pin) =>
      c in m.requested && c in registry.capabilities && pin in registry.capabilities[c].permittedPins
      && !schema.Forbids(pin) && pin !in schema.pinout
    case LeaseTooLong => m.maximumDurationSeconds > Config.MAX_LEASE_SECONDS
    case PeriodOutOfRange =>
      !(Config.MIN_CONTROL_PERIOD_SECONDS <= m.controlPeriodSeconds <= Config.MAX_CONTROL_PERIOD_SECONDS)
    case PeriodBeyondLease => m.controlPeriodSeconds > m.maximumDurationSeconds as real
    case Overlap(left, right) =>
      left in m.activation.Conditions() && right in m.recovery.Conditions()
      && left.metric == right.metric && SatisfiableTogether(left, right)
    case FallbackNotRequested =>
      FallbackRequirement(m.fallback).Some? && FallbackRequirement(m.fallback).value !in m.requested
    case FallbackNotSafe =>
      var required := FallbackRequirement(m.fallback);
      required.Some? && required.value in m.requested && required.value in registry.capabilities
      && !registry.capabilities[required.value].fallbackSafe
    case CpuOverBudget => TotalCpu(m.requested, registry) > m.budget.maxCpuMsPerStep
    case MemoryOverBudget => TotalMemory(m.requested, registry) > m.budget.maxMemoryKb
    case TransitionsOverCeiling =>
      m.budget.maxActuatorTransitionsPerMinute > Config.VERIFY_MAX_ACTUATOR_TRANSITIONS_PER_MIN
    case TransitionsOverLimit(c) =>
      c in m.requested && c in registry.capabilities && registry.capabilities[c].limits.Some?
      && m.budget.maxActuatorTransitionsPerMinute > registry.capabilities[c].limits.value.maxTransitionsPerMinute
  }

  predicate Declares(m: Manifest, registry: Registry, c: Capability, p: Precondition) {
    c in m.requested && c in registry.capabilities && p in registry.capabilities[c].preconditions
  }

  ghost predicate Valid(m: Manifest, registry: Registry, schema: Schema) {
    forall c: Complaint :: !Justified(m, registry, schema, c)
  }

  // ----- The checks -----

  method CheckHeader(m: Manifest, registry: Registry, schema: Schema) returns (errors: seq<Complaint>)
    ensures forall c :: c in errors <==>
      (c.UnsupportedVersion? || c.WrongDevice? || c.WrongRegistry?) && Justified(m, registry, schema, c)
  {
    errors := [];
    if m.version != Config.MANIFEST_VERSION { errors := errors + [UnsupportedVersion]; }
    if m.deviceId != schema.deviceId { errors := errors + [WrongDevice]; }
    if m.registryVersion != registry.version { errors := errors + [WrongRegistry]; }
  }

  method CheckKnownCapabilities(m: Manifest, registry: Registry, schema: Schema) returns (errors: seq<Complaint>)
    ensures forall c :: c in errors <==> c.UnknownCapability? && Justified(m, registry, schema, c)
  {
    errors := [];
    for i := 0 to |m.requested|
      invariant forall c :: c in errors <==>
        c.UnknownCapability? && c.name in m.requested[..i] && c.name !in registry.capabilities
    {
      if m.requested[i] !in registry.capabilities {
        errors := errors + [UnknownCapability(m.requested[i])];
      }
    }
  }

  method CheckSensorBinding(m: Manifest, registry: Registry, schema: Schema) returns (errors: seq<Complaint>)
    ensures forall c :: c in errors <==>
      (c.InputNotRegistered? || c.InputNotProduced? || c.ReadsUndeclared?) && Justified(m, registry, schema, c)
  {
    errors := [];
    var produced := Produced(m, registry);
    for i := 0 to |m.sensorInputs|
      invariant forall c :: c in errors <==>
        (c.InputNotRegistered? || c.InputNotProduced?) && c.metric in m.sensorInputs[..i]
        && Justified(m, registry, schema, c)
    {
      var x := m.sensorInputs[i];
      if x !in registry.metrics {
        errors := errors + [InputNotRegistered(x)];
      } else if x !in produced {
        errors := errors + [InputNotProduced(x)];
      }
    }
    var terms := m.activation.Conditions() + m.recovery.Conditions();
    for i := 0 to |terms|
      invariant forall c :: c in errors <==>
        || ((c.InputNotRegistered? || c.InputNotProduced?) && Justified(m, registry, schema, c))
        || (c.ReadsUndeclared? && c.metric !in m.sensorInputs
            && exists j :: 0 <= j < i && terms[j].metric == c.metric)
    {
      if terms[i].metric !in m.sensorInputs {
        errors := errors + [ReadsUndeclared(terms[i].metric)];
      }
    }
    forall x | x in m.MetricsUsed()
      ensures exists j :: 0 <= j < |terms| && terms[j].metric == x
    {
      var t :| (t in m.activation.Conditions() || t in m.recovery.Conditions()) && t.metric == x;
      assert t in terms;
    }
  }

  method CheckActuatorBinding(m: Manifest, registry: Registry, schema: Schema) returns (errors: seq<Complaint>)
    ensures forall c :: c in errors <==>
      (c.OutputNotRegistered? || c.OutputNotDriven? || c.DrivesUndeclared?) && Justified(m, registry, schema, c)
  {
    errors := [];
    var driven := Driven(m, registry);
    for i := 0 to |m.actuatorOutputs|
      invariant forall c :: c in errors <==>
        (c.OutputNotRegistered? || c.OutputNotDriven?) && c.actuator in m.actuatorOutputs[..i]
        && Justified(m, registry, schema, c)
    {
      var a := m.actuatorOutputs[i];
      if a !in registry.actuators {
        errors := errors + [OutputNotRegistered(a)];
      } else if a !in driven {
        errors := errors + [OutputNotDriven(a)];
      }
    }
    for i := 0 to |m.requested|
      invariant forall c :: c in errors <==>
        || ((c.OutputNotRegistered? || c.OutputNotDriven?) && Justified(m, registry, schema, c))
        || (c.DrivesUndeclared? && c.actuator !in m.actuatorOutputs
            && exists j :: 0 <= j < i && DrivenBy(registry, m.requested[j]) == Some(c.actuator))
    {
      var a := DrivenBy(registry, m.requested[i]);
      if a.Some? && a.value !in m.actuatorOutputs {
        errors := errors + [DrivesUndeclared(a.value)];
      }
    }
    forall a | a in driven
      ensures exists j :: 0 <= j < |m.requested| && DrivenBy(registry, m.requested[j]) == Some(a)
    {
      var name :| name in m.requested && DrivenBy(registry, name) == Some(a);
    }
  }

  function DrivenBy(registry: Registry, name: Capability): Option<Actuator> {
    if name in registry.capabilities then registry.capabilities[name].actuator else None
  }

  /** The complaint one pin can raise under one pin-related precondition. */
  function PinComplaint(schema: Schema, name: Capability, entry: CapabilityEntry, p: Precondition, pin: int)
    : Option<Complaint>
  {
    match p
    case PinPresentInSchema => if pin !in schema.pinout then Some(PinMissing(name, pin)) else None
    case PinNotForbidden => if schema.Forbids(pin) then Some(PinForbidden(name, pin)) else None
    case HardwareTypeMatches =>
      if pin in schema.pinout && schema.pinout[pin] !in entry.compatibleHardware
      then Some(WrongHardware(name, pin)) else None
    case _ => None
  }

  /** The complaints due under one precondition of one capability. */
  ghost predicate DueFor(m: Manifest, schema: Schema, name: Capability, entry: CapabilityEntry, p: Precondition,
                         c: Complaint)
  {
    || (exists pin :: pin in entry.permittedPins && PinComplaint(schema, name, entry, p, pin) == Some(c))
    || (p.ActuatorDeclared? && entry.actuator.Some? && entry.actuator.value !in m.actuatorOutputs
        && c == ActuatorNotDeclared(name))
    || (p.MetricsAvailable? && c.MetricNotSensed? && c.name == name && c.metric in entry.requiresMetrics
        && c.metric !in m.sensorInputs)
  }

  method CheckOnePrecondition(m: Manifest, schema: Schema, name: Capability, entry: CapabilityEntry, p: Precondition)
    returns (errors: seq<Complaint>)
    ensures forall c :: c in errors <==> DueFor(m, schema, name, entry, p, c)
  {
    errors := [];
    for i := 0 to |entry.permittedPins|
      invariant forall c :: c in errors <==>
        exists j :: 0 <= j < i && PinComplaint(schema, name, entry, p, entry.permittedPins[j]) == Some(c)
    {
      var complaint := PinComplaint(schema, name, entry, p, entry.permittedPins[i]);
      if complaint.Some? { errors := errors + [complaint.value]; }
    }
    if p.ActuatorDeclared? && entry.actuator.Some? && entry.actuator.value !in m.actuatorOutputs {
      errors := errors + [ActuatorNotDeclared(name)];
    }
    if p.MetricsAvailable? {
      ghost var before := errors;
      for i := 0 to |entry.requiresMetrics|
        invariant forall c :: c in errors <==>
          || c in before
          || (c.MetricNotSensed? && c.name == name && c.metric in entry.requiresMetrics[..i]
           && c.metric !in m.sensorInputs)
      {
        if entry.requiresMetrics[i] !in m.sensorInputs {
          errors := errors + [MetricNotSensed(name, entry.requiresMetrics[i])];
        }
      }
    }
  }

  predicate FromPreconditions(c: Complaint) {
    c.PinMissing? || c.PinForbidden? || c.WrongHardware? || c.ActuatorNotDeclared? || c.MetricNotSensed?
  }

  method CheckPreconditions(m: Manifest, registry: Registry, schema: Schema) returns (errors: seq<Complaint>)
    ensures forall c :: c in errors <==> FromPreconditions(c) && Justified(m, registry, schema, c)
  {
    errors := [];
    for i := 0 to |m.requested|
      invariant forall c :: c in errors <==>
        exists j :: 0 <= j < i && DueOn(m, registry, schema, m.requested[j], c)
    {
      var name := m.requested[i];
      if name in registry.capabilities {
        var entry := registry.capabilities[name];
        ghost var before := errors;
        for k := 0 to |entry.preconditions|
          invariant forall c :: c in errors <==>
            || c in before
            || (exists l :: 0 <= l < k && DueFor(m, schema, name, entry, entry.preconditions[l], c))
        {
          var more := CheckOnePrecondition(m, schema, name, entry, entry.preconditions[k]);
          errors := errors + more;
        }
      }
    }
    forall c
      ensures (exists j :: 0 <= j < |m.requested| && DueOn(m, registry, schema, m.requested[j], c))
        <==> FromPreconditions(c) && Justified(m, registry, schema, c)
    {
      DueIsJustified(m, registry, schema, c);
    }
  }

  ghost predicate DueOn(m: Manifest, registry: Registry, schema: Schema, name: Capability, c: Complaint) {
    name in registry.capabilities &&
    var entry := registry.capabilities[name];
    exists l :: 0 <= l < |entry.preconditions| && DueFor(m, schema, name, entry, entry.preconditions[l], c)
  }

  lemma DueIsJustified(m: Manifest, registry: Registry, schema: Schema, c: Complaint)
    ensures (exists j :: 0 <= j < |m.requested| && DueOn(m, registry, schema, m.requested[j], c))
      <==> FromPreconditions(c) && Justified(m, registry, schema, c)
  {
    if FromPreconditions(c) && Justified(m, registry, schema, c) {
      var p := match c
        case PinMissing(_, _) => PinPresentInSchema
        case PinForbidden(_, _) => PinNotForbidden
        case WrongHardware(_, _) => HardwareTypeMatches
        case ActuatorNotDeclared(_) => ActuatorDeclared
        case _ => MetricsAvailable;
      assert Declares(m, registry, c.name, p);
      var entry := registry.capabilities[c.name];
      if c.PinMissing? || c.PinForbidden? || c.WrongHardware? {
        assert PinComplaint(schema, c.name, entry, p, c.pin) == Some(c);
      }
      assert DueFor(m, schema, c.name, entry, p, c);
      assert DueOn(m, registry, schema, c.name, c);
    }
  }

  method CheckPinPermissions(m: Manifest, registry: Registry, schema: Schema) returns (errors: seq<Complaint>)
    ensures forall c :: c in errors <==>
      (c.SweepForbiddenPin? || c.SweepAbsentPin?) && Justified(m, registry, schema, c)
  {
    errors := [];
    for i := 0 to |m.requested|
      invariant forall c :: c in errors <==>
        (c.SweepForbiddenPin? || c.SweepAbsentPin?) && c.name in m.requested[..i]
        && Justified(m, registry, schema, c)
    {
      var name := m.requested[i];
      if name in registry.capabilities {
        var pins := registry.capabilities[name].permittedPins;
        ghost var before := errors;
        for k := 0 to |pins|
          invariant forall c :: c in errors <==>
            || c in before
            || ((c.SweepForbiddenPin? || c.SweepAbsentPin?) && c.name == name && c.pin in pins[..k]
             && Justified(m, registry, schema, c))
        {
          if schema.Forbids(pins[k]) {
            errors := errors + [SweepForbiddenPin(name, pins[k])];
          } else if pins[k] !in schema.pinout {
            errors := errors + [SweepAbsentPin(name, pins[k])];
          }
        }
      }
    }
  }

  method CheckLease(m: Manifest, registry: Registry, schema: Schema) returns (errors: seq<Complaint>)
    ensures forall c :: c in errors <==>
      (c.LeaseTooLong? || c.PeriodOutOfRange? || c.PeriodBeyondLease?) && Justified(m, registry, schema, c)
  {
    errors := [];
    if m.maximumDurationSeconds > Config.MAX_LEASE_SECONDS { errors := errors + [LeaseTooLong]; }
    var period := m.controlPeriodSeconds;
    if !(Config.MIN_CONTROL_PERIOD_SECONDS <= period <= Config.MAX_CONTROL_PERIOD_SECONDS) {
      errors := errors + [PeriodOutOfRange];
    }
    if period > m.maximumDurationSeconds as real { errors := errors + [PeriodBeyondLease]; }
  }

  method CheckConditionConsistency(m: Manifest, registry: Registry, schema: Schema)
    returns (errors: seq<Complaint>)
    ensures forall c :: c in errors <==> c.Overlap? && Justified(m, registry, schema, c)
  {
    errors := [];
    var activation := m.activation.Conditions();
    var recovery := m.recovery.Conditions();
    for i := 0 to |activation|
      invariant forall c :: c in errors <==>
        c.Overlap? && c.left in activation[..i] && Justified(m, registry, schema, c)
    {
      ghost var before := errors;
      for j := 0 to |recovery|
        invariant forall c :: c in errors <==>
          || c in before
          || (c.Overlap? && c.left == activation[i] && c.right in recovery[..j] && Justified(m, registry, schema, c))
      {
        if activation[i].metric == recovery[j].metric && SatisfiableTogether(activation[i], recovery[j]) {
          errors := errors + [Overlap(activation[i], recovery[j])];
        }
      }
    }
  }

  method CheckFallback(m: Manifest, registry: Registry, schema: Schema) returns (errors: seq<Complaint>)
    ensures forall c :: c in errors <==>
      (c.FallbackNotRequested? || c.FallbackNotSafe?) && Justified(m, registry, schema, c)
  {
    var required := FallbackRequirement(m.fallback);
    if required.None? {
      errors := [];
    } else if required.value !in m.requested {
      errors := [FallbackNotRequested];
    } else if required.value in registry.capabilities && !registry.capabilities[required.value].fallbackSafe {
      errors := [FallbackNotSafe];
    } else {
      errors := [];
    }
  }

  method CheckResourceBudget(m: Manifest, registry: Registry, schema: Schema) returns (errors: seq<Complaint>)
    ensures forall c :: c in errors <==>
      (c.CpuOverBudget? || c.MemoryOverBudget? || c.TransitionsOverCeiling? || c.TransitionsOverLimit?)
      && Justified(m, registry, schema, c)
  {
    errors := [];
    if TotalCpu(m.requested, registry) > m.budget.maxCpuMsPerStep { errors := errors + [CpuOverBudget]; }
    if TotalMemory(m.requested, registry) > m.budget.maxMemoryKb { errors := errors + [MemoryOverBudget]; }
    if m.budget.maxActuatorTransitionsPerMinute > Config.VERIFY_MAX_ACTUATOR_TRANSITIONS_PER_MIN {
      errors := errors + [TransitionsOverCeiling];
    }
    ghost var before := errors;
    for i := 0 to |m.requested|
      invariant forall c :: c in errors <==>
        || c in before
        || (c.TransitionsOverLimit? && c.name in m.requested[..i] && Justified(m, registry, schema, c))
    {
      var name := m.requested[i];
      if name in registry.capabilities && registry.capabilities[name].limits.Some?
         && m.budget.maxActuatorTransitionsPerMinute
              > registry.capabilities[name].limits.value.maxTransitionsPerMinute {
        errors := errors + [TransitionsOverLimit(name)];
      }
    }
  }

  /** Every complaint that is due, and only those; so the verdict is "pass" exactly on valid manifests. */
  method Validate(m: Manifest, registry: Registry, schema: Schema) returns (errors: seq<Complaint>)
    ensures forall c :: c in errors <==> Justified(m, registry, schema, c)
    ensures errors == [] <==> Valid(m, registry, schema)
  {
    var header := CheckHeader(m, registry, schema);
    var known := CheckKnownCapabilities(m, registry, schema);
    var sensors := CheckSensorBinding(m, registry, schema);
    var actuators := CheckActuatorBinding(m, registry, schema);
    var preconditions := CheckPreconditions(m, registry, schema);
    var pins := CheckPinPermissions(m, registry, schema);
    var lease := CheckLease(m, registry, schema);
    var consistency := CheckConditionConsistency(m, registry, schema);
    var fallback := CheckFallback(m, registry, schema);
    var budget := CheckResourceBudget(m, registry, schema);
    errors := header + known + sensors + actuators + preconditions + pins + lease + consistency + fallback + budget;
    if errors != [] { assert errors[0] in errors; }
  }
}
