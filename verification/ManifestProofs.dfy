/** What it means that a manifest is valid, said as what it may rely on rather than as what it can be faulted
    for. */
module ManifestProofs {
  import opened Names
  import opened Manifests
  import opened Registries
  import opened Costs
  import opened Validator

  /** Meant for this device and this registry, and asks for nothing unknown. */
  predicate Addressed(m: Manifest, registry: Registry, schema: Schema) {
    && m.version == "1.0" && m.deviceId == schema.deviceId && m.registryVersion == registry.version
    && forall c :: c in m.requested ==> c in registry.capabilities
  }

  /** Reads only metrics it declares, and declares only metrics that a requested capability produces. */
  predicate Sensed(m: Manifest, registry: Registry) {
    && (forall t :: t in m.activation.Conditions() ==> t.metric in m.sensorInputs)
    && (forall t :: t in m.recovery.Conditions() ==> t.metric in m.sensorInputs)
    && (forall x :: x in m.sensorInputs ==>
          x in registry.metrics
          && exists c :: c in m.requested && c in registry.capabilities && registry.capabilities[c].metric == Some(x))
  }

  /** Drives exactly the actuators it declares. */
  predicate Owned(m: Manifest, registry: Registry) {
    && (forall a :: a in m.actuatorOutputs ==>
          a in registry.actuators
          && exists c :: c in m.requested && c in registry.capabilities && registry.capabilities[c].actuator == Some(a))
    && (forall c :: c in m.requested && c in registry.capabilities && registry.capabilities[c].actuator.Some? ==>
          registry.capabilities[c].actuator.value in m.actuatorOutputs)
  }

  /** Every pin a requested capability may use is wired and not forbidden, and where the capability insists,
      to hardware it knows; and what it needs to read is declared. */
  predicate Wired(m: Manifest, registry: Registry, schema: Schema) {
    forall c :: c in m.requested && c in registry.capabilities ==>
      var entry := registry.capabilities[c];
      && (forall pin :: pin in entry.permittedPins ==>
            && pin in schema.pinout && !schema.Forbids(pin)
            && (HardwareTypeMatches in entry.preconditions ==> schema.pinout[pin] in entry.compatibleHardware))
      && (MetricsAvailable in entry.preconditions ==>
            forall x :: x in entry.requiresMetrics ==> x in m.sensorInputs)
  }

  /** Fifteen minutes at most, at a period between a tenth of a second and ten, and no longer than that. */
  predicate Timed(m: Manifest) {
    m.maximumDurationSeconds <= 900 && 0.1 <= m.controlPeriodSeconds <= 10.0
    && m.controlPeriodSeconds <= m.maximumDurationSeconds as real
  }

  /** No reading satisfies an activation term and a recovery term on the same metric. */
  ghost predicate Consistent(m: Manifest) {
    forall left, right, x: real :: left in m.activation.Conditions() && right in m.recovery.Conditions() ==>
      left.metric == right.metric ==> !BothHold(left, right, x)
  }

  /** The fallback it chose needs nothing it has not asked for, and rests on a capability declared safe. */
  predicate Recoverable(m: Manifest, registry: Registry) {
    match m.fallback
    case FallbackRestorePrevious => true
    case FallbackSafeIdle =>
      EnterSafeIdle in m.requested
      && (EnterSafeIdle in registry.capabilities ==> registry.capabilities[EnterSafeIdle].fallbackSafe)
    case FallbackHoldCooling =>
      FanOn in m.requested && (FanOn in registry.capabilities ==> registry.capabilities[FanOn].fallbackSafe)
  }

  /** What it asks for costs no more than it budgets, and it budgets no more switching than any limit allows. */
  predicate Affordable(m: Manifest, registry: Registry) {
    && TotalCpu(m.requested, registry) <= m.budget.maxCpuMsPerStep
    && TotalMemory(m.requested, registry) <= m.budget.maxMemoryKb
    && m.budget.maxActuatorTransitionsPerMinute <= 12
    && forall c :: c in m.requested && c in registry.capabilities && registry.capabilities[c].limits.Some? ==>
         m.budget.maxActuatorTransitionsPerMinute <= registry.capabilities[c].limits.value.maxTransitionsPerMinute
  }

  ghost predicate Acceptable(m: Manifest, registry: Registry, schema: Schema) {
    && Addressed(m, registry, schema) && Sensed(m, registry) && Owned(m, registry) && Wired(m, registry, schema)
    && Timed(m) && Consistent(m) && Recoverable(m, registry) && Affordable(m, registry)
  }

  lemma ValidIsAddressed(m: Manifest, registry: Registry, schema: Schema)
    requires Valid(m, registry, schema)
    ensures Addressed(m, registry, schema)
  {
    assert !Justified(m, registry, schema, UnsupportedVersion);
    assert !Justified(m, registry, schema, WrongDevice);
    assert !Justified(m, registry, schema, WrongRegistry);
    forall c | c in m.requested ensures c in registry.capabilities {
      assert !Justified(m, registry, schema, UnknownCapability(c));
    }
  }

  lemma ValidIsSensed(m: Manifest, registry: Registry, schema: Schema)
    requires Valid(m, registry, schema)
    ensures Sensed(m, registry)
  {
    forall t | t in m.activation.Conditions() || t in m.recovery.Conditions() ensures t.metric in m.sensorInputs {
      assert t.metric in m.MetricsUsed();
      assert !Justified(m, registry, schema, ReadsUndeclared(t.metric));
    }
    forall x | x in m.sensorInputs
      ensures x in registry.metrics
      ensures exists c :: c in m.requested && c in registry.capabilities && registry.capabilities[c].metric == Some(x)
    {
      assert !Justified(m, registry, schema, InputNotRegistered(x));
      assert !Justified(m, registry, schema, InputNotProduced(x));
      assert x in Produced(m, registry);
    }
  }

  lemma ValidIsOwned(m: Manifest, registry: Registry, schema: Schema)
    requires Valid(m, registry, schema)
    ensures Owned(m, registry)
  {
    forall a | a in m.actuatorOutputs
      ensures a in registry.actuators
      ensures exists c :: c in m.requested && c in registry.capabilities && registry.capabilities[c].actuator == Some(a)
    {
      assert !Justified(m, registry, schema, OutputNotRegistered(a));
      assert !Justified(m, registry, schema, OutputNotDriven(a));
      assert a in Driven(m, registry);
    }
    forall c | c in m.requested && c in registry.capabilities && registry.capabilities[c].actuator.Some?
      ensures registry.capabilities[c].actuator.value in m.actuatorOutputs
    {
      var a := registry.capabilities[c].actuator.value;
      assert a in Driven(m, registry);
      assert !Justified(m, registry, schema, DrivesUndeclared(a));
    }
  }

  lemma ValidIsWired(m: Manifest, registry: Registry, schema: Schema)
    requires Valid(m, registry, schema)
    ensures Wired(m, registry, schema)
  {
    forall c, pin | c in m.requested && c in registry.capabilities && pin in registry.capabilities[c].permittedPins
      ensures pin in schema.pinout && !schema.Forbids(pin)
      ensures HardwareTypeMatches in registry.capabilities[c].preconditions ==>
        schema.pinout[pin] in registry.capabilities[c].compatibleHardware
    {
      assert !Justified(m, registry, schema, SweepForbiddenPin(c, pin));
      assert !Justified(m, registry, schema, SweepAbsentPin(c, pin));
      assert !Justified(m, registry, schema, WrongHardware(c, pin));
    }
    forall c, x | c in m.requested && c in registry.capabilities
                  && MetricsAvailable in registry.capabilities[c].preconditions
                  && x in registry.capabilities[c].requiresMetrics
      ensures x in m.sensorInputs
    {
      assert !Justified(m, registry, schema, MetricNotSensed(c, x));
    }
  }

  lemma ValidIsConsistent(m: Manifest, registry: Registry, schema: Schema)
    requires Valid(m, registry, schema)
    ensures Consistent(m)
  {
    forall left, right, x: real | left in m.activation.Conditions() && right in m.recovery.Conditions()
                                  && left.metric == right.metric
      ensures !BothHold(left, right, x)
    {
      ProbesAreExact(left, right);
      assert !Justified(m, registry, schema, Overlap(left, right));
    }
  }

  lemma ValidIsRecoverable(m: Manifest, registry: Registry, schema: Schema)
    requires Valid(m, registry, schema)
    ensures Timed(m) && Recoverable(m, registry)
  {
    assert !Justified(m, registry, schema, LeaseTooLong);
    assert !Justified(m, registry, schema, PeriodOutOfRange);
    assert !Justified(m, registry, schema, PeriodBeyondLease);
    assert !Justified(m, registry, schema, FallbackNotRequested);
    assert !Justified(m, registry, schema, FallbackNotSafe);
  }

  lemma ValidIsAffordable(m: Manifest, registry: Registry, schema: Schema)
    requires Valid(m, registry, schema)
    ensures Affordable(m, registry)
  {
    assert !Justified(m, registry, schema, CpuOverBudget);
    assert !Justified(m, registry, schema, MemoryOverBudget);
    assert !Justified(m, registry, schema, TransitionsOverCeiling);
    forall c | c in m.requested && c in registry.capabilities && registry.capabilities[c].limits.Some?
      ensures m.budget.maxActuatorTransitionsPerMinute <= registry.capabilities[c].limits.value.maxTransitionsPerMinute
    {
      assert !Justified(m, registry, schema, TransitionsOverLimit(c));
    }
  }

  lemma NothingAgainst(m: Manifest, registry: Registry, schema: Schema, c: Complaint)
    requires Acceptable(m, registry, schema)
    ensures !Justified(m, registry, schema, c)
  {
    if c.Overlap? {
      if c.left.metric == c.right.metric { ProbesAreExact(c.left, c.right); }
    } else if FromPreconditions(c) || c.SweepForbiddenPin? || c.SweepAbsentPin? {
      NothingAgainstWiring(m, registry, schema, c);
    } else if c.InputNotRegistered? || c.InputNotProduced? || c.ReadsUndeclared?
           || c.OutputNotRegistered? || c.OutputNotDriven? || c.DrivesUndeclared? {
      NothingAgainstBinding(m, registry, schema, c);
    }
  }

  lemma NothingAgainstWiring(m: Manifest, registry: Registry, schema: Schema, c: Complaint)
    requires Wired(m, registry, schema) && Owned(m, registry)
    requires FromPreconditions(c) || c.SweepForbiddenPin? || c.SweepAbsentPin?
    ensures !Justified(m, registry, schema, c)
  {
  }

  lemma NothingAgainstBinding(m: Manifest, registry: Registry, schema: Schema, c: Complaint)
    requires Sensed(m, registry) && Owned(m, registry)
    requires c.InputNotRegistered? || c.InputNotProduced? || c.ReadsUndeclared?
          || c.OutputNotRegistered? || c.OutputNotDriven? || c.DrivesUndeclared?
    ensures !Justified(m, registry, schema, c)
  {
  }

  /** A manifest is valid exactly when it is addressed, sensed, owned, wired, timed, consistent, recoverable
      and affordable. */
  lemma ValidExactlyWhen(m: Manifest, registry: Registry, schema: Schema)
    ensures Valid(m, registry, schema) <==> Acceptable(m, registry, schema)
  {
    if Valid(m, registry, schema) {
      ValidIsAddressed(m, registry, schema);
      ValidIsSensed(m, registry, schema);
      ValidIsOwned(m, registry, schema);
      ValidIsWired(m, registry, schema);
      ValidIsConsistent(m, registry, schema);
      ValidIsRecoverable(m, registry, schema);
      ValidIsAffordable(m, registry, schema);
    }
    if Acceptable(m, registry, schema) {
      forall c ensures !Justified(m, registry, schema, c) {
        NothingAgainst(m, registry, schema, c);
      }
    }
  }

  // ----- What the totals are -----

  /** A total is what each listed capability costs, added up: one more adds its own cost, an unknown one
      nothing. */
  lemma TotalsAddUp(names: seq<Capability>, c: Capability, registry: Registry)
    ensures TotalCpu([], registry) == 0.0 && TotalMemory([], registry) == 0
    ensures TotalCpu([c] + names, registry)
         == TotalCpu(names, registry)
            + if c in registry.capabilities then registry.capabilities[c].cpuMsPerStep else 0.0
    ensures TotalMemory([c] + names, registry)
         == TotalMemory(names, registry) + if c in registry.capabilities then registry.capabilities[c].memoryKb else 0
  {
    assert ([c] + names)[1..] == names;
  }
}
