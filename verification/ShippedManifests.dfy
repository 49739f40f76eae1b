/** Manifests against the registry and schema that ship: what is enough to validate, and the stages of
    a compilation put together. */
module ShippedManifests {
  import opened Names
  import opened Manifests
  import opened Registries
  import opened Programs
  import opened Costs
  import opened Compiler
  import opened ShippedRegistry
  import Validator
  import Config

  /** Addressed right, asks for the temperature sensor and for the fan, declares what it senses and
      drives, and stays within every limit. */
  predicate Sensible(m: Manifest) {
    && m.version == Config.MANIFEST_VERSION && m.deviceId == SCHEMA.deviceId && m.registryVersion == REGISTRY.version
    && (forall i :: 0 <= i < |m.requested| ==> m.requested[i] in REGISTRY.capabilities)
    && ReadTemperature in m.requested && FanOn in m.requested
    && m.actuatorOutputs == [Fan]
    && (m.sensorInputs == [TemperatureC]
        || (m.sensorInputs == [TemperatureC, DistanceCm] && ReadDistance in m.requested))
    && (forall x :: x in m.MetricsUsed() ==> x in m.sensorInputs)
    && 1 <= m.maximumDurationSeconds <= Config.MAX_LEASE_SECONDS
    && 0.1 <= m.controlPeriodSeconds <= 10.0 && m.controlPeriodSeconds <= m.maximumDurationSeconds as real
    && (m.fallback.FallbackSafeIdle? ==> EnterSafeIdle in m.requested)
    && TotalCpu(m.requested, REGISTRY) <= m.budget.maxCpuMsPerStep
    && TotalMemory(m.requested, REGISTRY) <= m.budget.maxMemoryKb
    && m.budget.maxActuatorTransitionsPerMinute <= 12
  }

  lemma NamesAreFine(m: Manifest, c: Validator.Complaint)
    requires Sensible(m)
    requires c.UnsupportedVersion? || c.WrongDevice? || c.WrongRegistry? || c.UnknownCapability?
    ensures !Validator.Justified(m, REGISTRY, SCHEMA, c)
  {
  }

  lemma MetricsAreFine(m: Manifest, c: Validator.Complaint)
    requires Sensible(m) && (c.InputNotRegistered? || c.InputNotProduced? || c.ReadsUndeclared?)
    ensures !Validator.Justified(m, REGISTRY, SCHEMA, c)
  {
    assert TemperatureC in Validator.Produced(m, REGISTRY);
    assert ReadDistance in m.requested ==> DistanceCm in Validator.Produced(m, REGISTRY);
  }

  lemma ActuatorsAreFine(m: Manifest, c: Validator.Complaint)
    requires Sensible(m) && (c.OutputNotRegistered? || c.OutputNotDriven? || c.DrivesUndeclared?)
    ensures !Validator.Justified(m, REGISTRY, SCHEMA, c)
  {
    assert Fan in Validator.Driven(m, REGISTRY);
  }

  lemma WiringIsFine(m: Manifest, c: Validator.Complaint)
    requires c.PinMissing? || c.PinForbidden? || c.WrongHardware? || c.SweepForbiddenPin? || c.SweepAbsentPin?
    ensures !Validator.Justified(m, REGISTRY, SCHEMA, c)
  {
  }

  lemma NeedsAreFine(m: Manifest, c: Validator.Complaint)
    requires Sensible(m) && (c.ActuatorNotDeclared? || c.MetricNotSensed?)
    ensures !Validator.Justified(m, REGISTRY, SCHEMA, c)
  {
  }

  lemma TimingIsFine(m: Manifest, c: Validator.Complaint)
    requires Sensible(m) && (c.LeaseTooLong? || c.PeriodOutOfRange? || c.PeriodBeyondLease?)
    ensures !Validator.Justified(m, REGISTRY, SCHEMA, c)
  {
  }

  lemma BudgetIsFine(m: Manifest, c: Validator.Complaint)
    requires Sensible(m)
    requires c.FallbackNotRequested? || c.FallbackNotSafe? || c.CpuOverBudget? || c.MemoryOverBudget?
          || c.TransitionsOverCeiling? || c.TransitionsOverLimit?
    ensures !Validator.Justified(m, REGISTRY, SCHEMA, c)
  {
  }

  /** A sensible manifest can be faulted for overlapping conditions at most. */
  lemma SensibleIsValid(m: Manifest)
    requires Sensible(m)
    requires forall left, right :: !Validator.Justified(m, REGISTRY, SCHEMA, Validator.Overlap(left, right))
    ensures Validator.Valid(m, REGISTRY, SCHEMA)
  {
    forall c: Validator.Complaint
      ensures !Validator.Justified(m, REGISTRY, SCHEMA, c)
    {
      if c.UnsupportedVersion? || c.WrongDevice? || c.WrongRegistry? || c.UnknownCapability? {
        NamesAreFine(m, c);
      } else if c.InputNotRegistered? || c.InputNotProduced? || c.ReadsUndeclared? {
        MetricsAreFine(m, c);
      } else if c.OutputNotRegistered? || c.OutputNotDriven? || c.DrivesUndeclared? {
        ActuatorsAreFine(m, c);
      } else if c.ActuatorNotDeclared? || c.MetricNotSensed? {
        NeedsAreFine(m, c);
      } else if c.LeaseTooLong? || c.PeriodOutOfRange? || c.PeriodBeyondLease? {
        TimingIsFine(m, c);
      } else if c.PinMissing? || c.PinForbidden? || c.WrongHardware? || c.SweepForbiddenPin? || c.SweepAbsentPin? {
        WiringIsFine(m, c);
      } else if !c.Overlap? {
        BudgetIsFine(m, c);
      }
    }
  }

  // ----- Stages of a compilation -----

  /** The fan's five seconds are the longest hold there is, at one period a second five ticks. */
  lemma HoldIsFive(m: Manifest)
    requires FanOn in m.requested && m.controlPeriodSeconds == 1.0
    ensures MinHoldTicks(m, REGISTRY) == 5
  {
    LongestHoldDominates(m.requested, REGISTRY);
    assert HoldOf(REGISTRY, FanOn) == Some(5.0);
    assert forall n :: HoldOf(REGISTRY, n).Some? ==> HoldOf(REGISTRY, n) == Some(5.0);
  }

  /** Two names are in order by the first letter in which they differ. */
  lemma {:induction false} BeforeByLetter(s: string, t: string, k: nat)
    requires k < |s| && k < |t| && s[..k] == t[..k] && s[k] < t[k]
    ensures TextBefore(s, t)
    decreases k
  {
    if k > 0 {
      assert s[0] == s[..k][0] == t[..k][0] == t[0];
      assert s[1..][..k - 1] == s[..k][1..] && t[1..][..k - 1] == t[..k][1..];
      BeforeByLetter(s[1..], t[1..], k - 1);
    }
  }

  lemma EmitContextEventBeforeEmitCriticalEvent()
    ensures Before(EmitContextEvent, EmitCriticalEvent)
  {
    var s, t := NameOf(EmitContextEvent), NameOf(EmitCriticalEvent);
    assert s[..6] == t[..6];
    BeforeByLetter(s, t, 6);
  }

  lemma EmitCriticalEventBeforeEmitHeartbeat()
    ensures Before(EmitCriticalEvent, EmitHeartbeat)
  {
    var s, t := NameOf(EmitCriticalEvent), NameOf(EmitHeartbeat);
    assert s[..5] == t[..5];
    BeforeByLetter(s, t, 5);
  }

  lemma EmitHeartbeatBeforeEnterSafeIdle()
    ensures Before(EmitHeartbeat, EnterSafeIdle)
  {
    var s, t := NameOf(EmitHeartbeat), NameOf(EnterSafeIdle);
    assert s[..1] == t[..1];
    BeforeByLetter(s, t, 1);
  }

  lemma EmitHeartbeatBeforeFanOff()
    ensures Before(EmitHeartbeat, FanOff)
  {
    var s, t := NameOf(EmitHeartbeat), NameOf(FanOff);
    BeforeByLetter(s, t, 0);
  }

  lemma EnterSafeIdleBeforeFanOff()
    ensures Before(EnterSafeIdle, FanOff)
  {
    var s, t := NameOf(EnterSafeIdle), NameOf(FanOff);
    BeforeByLetter(s, t, 0);
  }

  lemma FanOffBeforeFanOn()
    ensures Before(FanOff, FanOn)
  {
    var s, t := NameOf(FanOff), NameOf(FanOn);
    assert s[..5] == t[..5];
    BeforeByLetter(s, t, 5);
  }

  lemma FanOnBeforeReadDistance()
    ensures Before(FanOn, ReadDistance)
  {
    var s, t := NameOf(FanOn), NameOf(ReadDistance);
    BeforeByLetter(s, t, 0);
  }

  lemma FanOnBeforeReadTemperature()
    ensures Before(FanOn, ReadTemperature)
  {
    var s, t := NameOf(FanOn), NameOf(ReadTemperature);
    BeforeByLetter(s, t, 0);
  }

  lemma ReadDistanceBeforeReadTemperature()
    ensures Before(ReadDistance, ReadTemperature)
  {
    var s, t := NameOf(ReadDistance), NameOf(ReadTemperature);
    assert s[..5] == t[..5];
    BeforeByLetter(s, t, 5);
  }

  predicate InOrder(s: seq<Capability>) {
    forall i :: 0 <= i < |s| - 1 ==> Before(s[i], s[i + 1])
  }

  lemma {:induction false} SortedIsItself(s: seq<Capability>)
    requires InOrder(s)
    ensures Sorted(s) == s
  {
    if s != [] {
      var rest := s[1..];
      assert forall i :: 0 <= i < |rest| ==> rest[i] == s[i + 1];
      SortedIsItself(rest);
    }
  }

  /** One more capability's fragment. */
  lemma OneMoreBuilt(names: seq<Capability>, n: Capability, m: Manifest, fs: Fragments, fragment: Fragment)
    requires n in REGISTRY.capabilities && forall k :: k in names ==> k in REGISTRY.capabilities
    requires FragmentsOf(names, m, REGISTRY) == Ok(fs)
    requires BuildFragment(n, REGISTRY.capabilities[n], m) == Ok(fragment)
    ensures FragmentsOf(names + [n], m, REGISTRY) == Ok(AddFragment(fs, n, fragment))
  {
    assert (names + [n])[..|names|] == names;
  }

  /** The stages of a compilation, each given, make the compilation. */
  lemma StagesCompile(hash: Manifest -> Hash, m: Manifest, registry: Registry, schema: Schema, fs: Fragments,
                      pattern: PatternId, p: Program)
    requires m.controlPeriodSeconds > 0.0 && m.registryVersion == registry.version
    requires forall n :: n in m.requested ==> n in registry.capabilities
    requires forall n :: n in Sorted(m.requested) ==> n in registry.capabilities
    requires FragmentsOf(Sorted(m.requested), m, registry) == Ok(fs)
    requires SelectPattern(set n | n in m.requested) == Some(pattern)
    requires Assemble(hash(m), m, registry, pattern, fs) == Ok(p) && CheckPins(p, schema) == Ok(p)
    ensures Compile(hash, m, registry, schema) == Ok(p)
  {
  }
}
