/** Right folds whose step does not care about order, and the one lemma that makes sums, maxima and
    sorting independent of the order of a list. */
module Folds {

  function Fold<A, B>(f: (A, B) -> B, s: seq<A>, e: B): B {
    if s == [] then e else f(s[0], Fold(f, s[1..], e))
  }

  ghost predicate LeftCommutative<A(!new), B(!new)>(f: (A, B) -> B) {
    forall x, y, b :: f(x, f(y, b)) == f(y, f(x, b))
  }

  function Without<A>(s: seq<A>, k: nat): seq<A>
    requires k < |s|
  {
    s[..k] + s[k + 1..]
  }

  lemma {:induction false} FoldPulls<A(!new), B(!new)>(f: (A, B) -> B, s: seq<A>, e: B, k: nat)
    requires LeftCommutative(f) && k < |s|
    ensures Fold(f, s, e) == f(s[k], Fold(f, Without(s, k), e))
  {
    if k == 0 {
      assert Without(s, 0) == s[1..];
    } else {
      FoldPulls(f, s[1..], e, k - 1);
      assert Without(s, k)[1..] == Without(s[1..], k - 1);
    }
  }

  lemma {:induction false} FoldPermutation<A(!new), B(!new)>(f: (A, B) -> B, s: seq<A>, t: seq<A>, e: B)
    requires LeftCommutative(f) && multiset(s) == multiset(t)
    ensures Fold(f, s, e) == Fold(f, t, e)
  {
    if s == [] {
      assert |multiset(t)| == 0;
    } else {
      assert s[0] in multiset(t);
      var k :| 0 <= k < |t| && t[k] == s[0];
      assert t == t[..k] + [t[k]] + t[k + 1..];
      assert s == [s[0]] + s[1..];
      assert multiset(s[1..]) == multiset(s) - multiset{s[0]};
      assert multiset(Without(t, k)) == multiset(t) - multiset{s[0]};
      FoldPermutation(f, s[1..], Without(t, k), e);
      FoldPulls(f, t, e, k);
    }
  }
}

/** Resource cost, hold time and canonical order of a list of capabilities. */
module Costs {
  import opened Names
  import opened Registries
  import opened Folds

  function CpuOf(registry: Registry, name: Capability): real {
    if name in registry.capabilities then registry.capabilities[name].cpuMsPerStep else 0.0
  }

  function MemoryOf(registry: Registry, name: Capability): int {
    if name in registry.capabilities then registry.capabilities[name].memoryKb else 0
  }

  function HoldOf(registry: Registry, name: Capability): Option<real> {
    if name in registry.capabilities && registry.capabilities[name].limits.Some?
    then Some(registry.capabilities[name].limits.value.minHoldSeconds) else None
  }

  function AddCpu(registry: Registry): (Capability, real) -> real {
    (name, total) => CpuOf(registry, name) + total
  }

  function AddMemory(registry: Registry): (Capability, int) -> int {
    (name, total) => MemoryOf(registry, name) + total
  }

  function Longer(a: Option<real>, b: Option<real>): Option<real> {
    if a.None? then b else if b.None? then a else if a.value >= b.value then a else b
  }

  function LongerHold(registry: Registry): (Capability, Option<real>) -> Option<real> {
    (name, hold) => Longer(HoldOf(registry, name), hold)
  }

  function TotalCpu(names: seq<Capability>, registry: Registry): real {
    Fold(AddCpu(registry), names, 0.0)
  }

  function TotalMemory(names: seq<Capability>, registry: Registry): int {
    Fold(AddMemory(registry), names, 0)
  }

  /** The longest hold any requested actuator capability demands. */
  function LongestHold(names: seq<Capability>, registry: Registry): Option<real> {
    Fold(LongerHold(registry), names, None)
  }

  lemma {:induction false} LongestHoldDominates(names: seq<Capability>, registry: Registry)
    ensures LongestHold(names, registry).None? <==> forall n :: n in names ==> HoldOf(registry, n).None?
    ensures forall n :: n in names && HoldOf(registry, n).Some? ==>
      LongestHold(names, registry).Some? && HoldOf(registry, n).value <= LongestHold(names, registry).value
    ensures LongestHold(names, registry).Some? ==>
      exists n :: n in names && HoldOf(registry, n) == LongestHold(names, registry)
  {
    if names != [] {
      LongestHoldDominates(names[1..], registry);
      assert names == [names[0]] + names[1..];
      if LongestHold(names, registry).Some? {
        if LongestHold(names, registry) == HoldOf(registry, names[0]) {
          assert names[0] in names;
        } else {
          var n :| n in names[1..] && HoldOf(registry, n) == LongestHold(names[1..], registry);
          assert n in names;
        }
      }
    }
  }

  // ----- Sorting capability names -----

  /** A capability's name as the registry writes it. */
  function NameOf(c: Capability): string {
    match c
    case EmitContextEvent => "emit_context_event"
    case EmitCriticalEvent => "emit_critical_event"
    case EmitHeartbeat => "emit_heartbeat"
    case EnterSafeIdle => "enter_safe_idle"
    case FanOff => "fan_off"
    case FanOn => "fan_on"
    case ReadDistance => "read_distance"
    case ReadTemperature => "read_temperature"
    case OtherCapability(name) => name
  }

  predicate TextBefore(s: string, t: string) {
    s == [] || (t != [] && (s[0] < t[0] || (s[0] == t[0] && TextBefore(s[1..], t[1..]))))
  }

  /** By name. The second clause only breaks the tie between a known capability and another one that
      has been given the same name. */
  predicate Before(a: Capability, b: Capability) {
    if NameOf(a) == NameOf(b) then a == b || !a.OtherCapability? else TextBefore(NameOf(a), NameOf(b))
  }

  /** The known names differ. */
  lemma KnownNamesDiffer(a: Capability, b: Capability)
    requires !a.OtherCapability? && !b.OtherCapability? && NameOf(a) == NameOf(b)
    ensures a == b
  {
    var s, t := NameOf(a), NameOf(b);
    assert |s| == |t|;
    assert |s| > 9 ==> s[6] == t[6];
    assert s[5] == t[5];
  }

  lemma TextBeforeIsAnOrder(s: string, t: string, u: string)
    ensures TextBefore(s, t) || TextBefore(t, s)
    ensures TextBefore(s, t) && TextBefore(t, s) ==> s == t
    ensures TextBefore(s, t) && TextBefore(t, u) ==> TextBefore(s, u)
  {
    if s != [] && t != [] {
      TextBeforeIsAnOrder(s[1..], t[1..], if u == [] then [] else u[1..]);
      if TextBefore(s, t) && TextBefore(t, s) {
        assert s == [s[0]] + s[1..] && t == [t[0]] + t[1..];
      }
    }
  }

  lemma BeforeIsTotal(a: Capability, b: Capability)
    ensures Before(a, b) || Before(b, a)
    ensures Before(a, b) && Before(b, a) ==> a == b
  {
    TextBeforeIsAnOrder(NameOf(a), NameOf(b), NameOf(a));
    if NameOf(a) == NameOf(b) && !a.OtherCapability? && !b.OtherCapability? {
      KnownNamesDiffer(a, b);
    }
  }

  lemma BeforeIsTransitive(a: Capability, b: Capability, c: Capability)
    requires Before(a, b) && Before(b, c)
    ensures Before(a, c)
  {
    var s, t, u := NameOf(a), NameOf(b), NameOf(c);
    if s != t && t != u {
      TextBeforeIsAnOrder(s, t, u);
      TextBeforeIsAnOrder(s, u, t);
      TextBeforeIsAnOrder(t, u, s);
    }
  }

  lemma BeforeIsAnOrder(a: Capability, b: Capability, c: Capability)
    ensures Before(a, b) || Before(b, a)
    ensures Before(a, b) && Before(b, a) ==> a == b
    ensures Before(a, b) && Before(b, c) ==> Before(a, c)
  {
    BeforeIsTotal(a, b);
    if Before(a, b) && Before(b, c) {
      BeforeIsTransitive(a, b, c);
    }
  }

  function Insert(x: Capability, s: seq<Capability>): seq<Capability> {
    if s == [] || Before(x, s[0]) then [x] + s else [s[0]] + Insert(x, s[1..])
  }

  function Sorted(names: seq<Capability>): seq<Capability> {
    Fold(Insert, names, [])
  }

  lemma {:induction false} InsertKeepsElements(x: Capability, s: seq<Capability>)
    ensures multiset(Insert(x, s)) == multiset(s) + multiset{x}
  {
    if !(s == [] || Before(x, s[0])) {
      InsertKeepsElements(x, s[1..]);
      assert s == [s[0]] + s[1..];
    }
  }

  lemma {:induction false} SortedKeepsElements(names: seq<Capability>)
    ensures multiset(Sorted(names)) == multiset(names)
    ensures forall c :: c in Sorted(names) <==> c in names
  {
    if names != [] {
      SortedKeepsElements(names[1..]);
      InsertKeepsElements(names[0], Sorted(names[1..]));
      assert names == [names[0]] + names[1..];
    }
    assert forall c :: c in Sorted(names) <==> c in multiset(Sorted(names));
    assert forall c :: c in names <==> c in multiset(names);
  }

  lemma {:induction false} InsertCommutes(x: Capability, y: Capability, s: seq<Capability>)
    ensures Insert(x, Insert(y, s)) == Insert(y, Insert(x, s))
  {
    BeforeIsAnOrder(x, y, x);
    if s != [] {
      BeforeIsAnOrder(x, y, s[0]);
      BeforeIsAnOrder(y, x, s[0]);
      BeforeIsAnOrder(x, s[0], y);
      BeforeIsAnOrder(y, s[0], x);
      if !Before(x, s[0]) && !Before(y, s[0]) {
        InsertCommutes(x, y, s[1..]);
      }
    }
  }

  lemma SortingForgetsOrder(s: seq<Capability>, t: seq<Capability>)
    requires multiset(s) == multiset(t)
    ensures Sorted(s) == Sorted(t)
  {
    forall x, y, b ensures Insert(x, Insert(y, b)) == Insert(y, Insert(x, b)) {
      InsertCommutes(x, y, b);
    }
    FoldPermutation(Insert, s, t, []);
  }

  /** Sorting, both sums and the longest hold give the same answer on any permutation. */
  lemma {:induction false} OrderDoesNotMatter(s: seq<Capability>, t: seq<Capability>, registry: Registry)
    requires multiset(s) == multiset(t)
    ensures Sorted(s) == Sorted(t)
    ensures TotalCpu(s, registry) == TotalCpu(t, registry)
    ensures TotalMemory(s, registry) == TotalMemory(t, registry)
    ensures LongestHold(s, registry) == LongestHold(t, registry)
  {
    SortingForgetsOrder(s, t);
    FoldPermutation(AddCpu(registry), s, t, 0.0);
    FoldPermutation(AddMemory(registry), s, t, 0);
    FoldPermutation(LongerHold(registry), s, t, None);
  }
}
