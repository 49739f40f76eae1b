/** A manifest the validator passes although its activation and recovery conditions can hold at once:
    it cools by temperature and stops by distance. Only the compiler refuses it. */
module DistanceExample {
  import opened Names
  import opened Manifests
  import opened Registries
  import opened Programs
  import opened Costs
  import opened Compiler
  import opened ShippedRegistry
  import opened ShippedManifests
  import RuntimeProofs
  import Validator

  const REQUESTED: seq<Capability> := [ReadTemperature, ReadDistance, FanOn, FanOff, EmitHeartbeat]
  const SORTED: seq<Capability> := [EmitHeartbeat, FanOff, FanOn, ReadDistance, ReadTemperature]

  const ACTIVATE := Condition(TemperatureC, GE, 80.0)
  const RECOVER := Condition(DistanceCm, LT, 100.0)

  const MANIFEST := Manifest(
    "1.0", "m-event-range", "pi_node_alpha", "event", NamedEvent("HEAT"), "base", "1.0.0",
    REQUESTED, [TemperatureC, DistanceCm], [Fan], Single(ACTIVATE), Single(RECOVER), 300, 1.0,
    ResourceBudget(7.0, 84, 12), FallbackRestorePrevious)

  lemma TotalCost()
    ensures TotalCpu(REQUESTED, REGISTRY) == 3.0 && TotalMemory(REQUESTED, REGISTRY) == 34
  {
    assert REQUESTED[1..][1..] == REQUESTED[2..];
    assert REQUESTED[2..][1..] == REQUESTED[3..];
    assert REQUESTED[3..][1..] == REQUESTED[4..];
  }

  lemma AllKnown()
    ensures forall n :: n in SORTED ==> n in REGISTRY.capabilities
    ensures forall n :: n in REQUESTED ==> n in REGISTRY.capabilities
  {
  }

  lemma IsSensible()
    ensures Sensible(MANIFEST)
  {
    TotalCost();
    AllKnown();
    assert MANIFEST.MetricsUsed() == {TemperatureC, DistanceCm};
  }

  lemma IsValid()
    ensures Validator.Valid(MANIFEST, REGISTRY, SCHEMA)
  {
    IsSensible();
    SensibleIsValid(MANIFEST);
  }

  lemma CanBothHold()
    ensures !RuntimeProofs.Disjoint(MANIFEST.activation, MANIFEST.recovery)
  {
    var metrics: Metrics := map[TemperatureC := 90.0, DistanceCm := 50.0];
    assert MANIFEST.activation.Evaluate(metrics) && MANIFEST.recovery.Evaluate(metrics);
  }

  lemma SortedRequest()
    ensures Sorted(REQUESTED) == SORTED
  {
    EmitHeartbeatBeforeFanOff();
    FanOffBeforeFanOn();
    FanOnBeforeReadDistance();
    ReadDistanceBeforeReadTemperature();
    assert InOrder(SORTED);
    SortedIsItself(SORTED);
    SameMembers();
    OrderDoesNotMatter(REQUESTED, SORTED, REGISTRY);
  }

  lemma SameMembers()
    ensures multiset(REQUESTED) == multiset(SORTED)
  {
  }

  /** Templates that all build, build a list. */
  lemma {:induction false} AllBuild(names: seq<Capability>, m: Manifest)
    requires forall n :: n in names ==> n in REGISTRY.capabilities
    requires forall n :: n in names ==> BuildFragment(n, REGISTRY.capabilities[n], m).Ok?
    ensures FragmentsOf(names, m, REGISTRY).Ok?
  {
    if names != [] {
      AllBuild(names[..|names| - 1], m);
    }
  }

  lemma EachBuilds(n: Capability)
    requires n in SORTED
    ensures n in REGISTRY.capabilities && BuildFragment(n, REGISTRY.capabilities[n], MANIFEST).Ok?
  {
  }

  lemma Builds(names: seq<Capability>)
    requires names == SORTED
    ensures forall n :: n in names ==> n in REGISTRY.capabilities
    ensures FragmentsOf(names, MANIFEST, REGISTRY).Ok?
  {
    forall n | n in names
      ensures n in REGISTRY.capabilities && BuildFragment(n, REGISTRY.capabilities[n], MANIFEST).Ok?
    {
      EachBuilds(n);
    }
    AllBuild(names, MANIFEST);
  }

  lemma NoPattern()
    ensures SelectPattern(set n | n in REQUESTED) == None
  {
    var asked := set n | n in REQUESTED;
    assert ReadDistance in asked && FanOn in asked;
    assert FanOn !in Required(MonitorOnly) + Optional(MonitorOnly);
    assert ReadDistance !in Required(ThermalCooling) + Optional(ThermalCooling);
    assert EnterSafeIdle !in asked;
  }

  lemma NoPatternRefuses(hash: Manifest -> Hash, m: Manifest, registry: Registry, schema: Schema)
    requires m.controlPeriodSeconds > 0.0 && m.registryVersion == registry.version
    requires forall n :: n in m.requested ==> n in registry.capabilities
    requires forall n :: n in Sorted(m.requested) ==> n in registry.capabilities
    requires FragmentsOf(Sorted(m.requested), m, registry).Ok?
    requires SelectPattern(set n | n in m.requested) == None
    ensures Compile(hash, m, registry, schema) == Refused(NoPatternCovers)
  {
  }

  lemma IsRefused(hash: Manifest -> Hash)
    ensures Compile(hash, MANIFEST, REGISTRY, SCHEMA) == Refused(NoPatternCovers)
  {
    AllKnown();
    SortedRequest();
    Builds(Sorted(REQUESTED));
    NoPattern();
    NoPatternRefuses(hash, MANIFEST, REGISTRY, SCHEMA);
  }

  /** The three together. */
  lemma ValidatorAloneIsNotEnough(hash: Manifest -> Hash)
    ensures Validator.Valid(MANIFEST, REGISTRY, SCHEMA)
    ensures !RuntimeProofs.Disjoint(MANIFEST.activation, MANIFEST.recovery)
    ensures Compile(hash, MANIFEST, REGISTRY, SCHEMA) == Refused(NoPatternCovers)
  {
    IsValid();
    CanBothHold();
    IsRefused(hash);
  }
}
