/** The safety supervisor: the only writer of actuators. Its functions act on a `Plant`, the pair of
    the world it writes and its own state; the class is proved to do exactly what they say. */
module Supervisors {
  import opened Names
  import opened Registries
  import opened Programs
  import opened Worlds
  import Config

  datatype SafetyState = Normal | SafeState

  datatype Policy = Policy(
    emergencyC: real,
    coolingC: real,
    hysteresisC: real,
    heartbeatMissLimit: int,
    windowSeconds: real)

  const DEFAULT_POLICY := Policy(
    Config.EMERGENCY_TEMP_C, Config.SAFE_STATE_COOLING_TEMP_C, Config.SAFE_STATE_HYSTERESIS_C,
    Config.LOCAL_HEARTBEAT_MISS_LIMIT, 60.0)

  /** What a supervisor is built with and never changes. */
  datatype Setup = Setup(policy: Policy, registry: Registry, schema: Schema) {
    predicate Valid() { registry.OrderedTable() }
  }

  /** One logged transition. `byIntent` says whether a controller's intent caused it; no decision
      reads that mark, it is there for theorems to refer to. */
  datatype Entry = Entry(time: real, actuator: Actuator, byIntent: bool)

  datatype Supervisor = Supervisor(
    state: SafetyState,
    emergency: bool,
    emergencyActivations: nat,
    allowed: set<Capability>,
    log: seq<Entry>,
    sinceHeartbeat: int)

  datatype Plant = Plant(world: World, sup: Supervisor)

  datatype Verdict =
    | RejectedSafeState
    | RejectedUnknownCapability
    | RejectedUndeclaredCapability
    | RejectedKindMismatch
    | RejectedUnknownActuator
    | RejectedUnknownLevel
    | RejectedPinNotPermitted
    | RejectedPinAbsent
    | RejectedForbiddenPin
    | RejectedHardwareMismatch
    | RejectedCurrentLimit
    | RejectedEmergencyOverride
    | RejectedTransitionBudget
    | RejectedValidationError
    | TelemetryEmitted
    | SafeStateRequested
    | Applied

  function Started(): Supervisor {
    Supervisor(Normal, false, 0, {}, [], 0)
  }

  // ----- Installation -----

  function InstallProgram(s: Supervisor, program: Program): Supervisor {
    s.(allowed := program.CapabilitiesUsed(), sinceHeartbeat := 0)
  }

  function EnterSafeState(s: Supervisor): Supervisor {
    s.(state := SafeState)
  }

  function LeaveSafeState(s: Supervisor): Supervisor {
    s.(state := Normal, sinceHeartbeat := 0)
  }

  // ----- Actuator port -----

  /** Write an actuator; a write of the level it is already in is no transition. */
  function SetLevel(p: Plant, a: Actuator, level: Level, time: real, byIntent: bool): Plant
    requires a in p.world.actuators
  {
    if p.world.actuators[a] == level then p
    else Plant(SetActuator(p.world, a, level), p.sup.(log := p.sup.log + [Entry(time, a, byIntent)]))
  }

  // ----- Local policy -----

  function DrivenActuators(setup: Setup, allowed: set<Capability>): set<Actuator> {
    set c | c in allowed && c in setup.registry.capabilities && setup.registry.capabilities[c].actuator.Some?
      :: setup.registry.capabilities[c].actuator.value
  }

  /** Release every listed actuator that no installed capability owns. */
  function ReleaseAll(setup: Setup, p: Plant, names: seq<Actuator>, driven: set<Actuator>, time: real): Plant
    requires forall i :: 0 <= i < |names| ==> names[i] in setup.registry.actuators
    decreases |names|
  {
    if names == [] then p
    else
      var a := names[0];
      var next :=
        if a in driven || a !in p.world.actuators then p
        else SetLevel(p, a, setup.registry.actuators[a].defaultLevel, time, false);
      ReleaseAll(setup, next, names[1..], driven, time)
  }

  function ManageUnowned(setup: Setup, p: Plant, metrics: Metrics, time: real): Plant
    requires setup.Valid()
  {
    if p.sup.emergency || p.sup.state.SafeState? then p
    else if TemperatureC !in metrics || metrics[TemperatureC] >= setup.policy.coolingC then p
    else ReleaseAll(setup, p, setup.registry.actuatorOrder, DrivenActuators(setup, p.sup.allowed), time)
  }

  /** Engage at the cooling threshold, release below the hysteresis band, hold in between; cool
      when there is no reading at all. */
  function ThermalTarget(setup: Setup, w: World, a: Actuator, reading: Option<real>): Level
    requires a in setup.registry.actuators
  {
    var spec := setup.registry.actuators[a];
    if reading.None? then spec.safeLevelWhenHot
    else if reading.value >= setup.policy.coolingC then spec.safeLevelWhenHot
    else if reading.value <= setup.policy.coolingC - setup.policy.hysteresisC then spec.defaultLevel
    else if a in w.actuators && w.actuators[a] in spec.levels then w.actuators[a]
    else spec.defaultLevel
  }

  function SafeAll(setup: Setup, p: Plant, names: seq<Actuator>, reading: Option<real>, time: real): Plant
    requires forall i :: 0 <= i < |names| ==> names[i] in setup.registry.actuators
    decreases |names|
  {
    if names == [] then p
    else
      var a := names[0];
      var next :=
        if a in p.world.actuators then SetLevel(p, a, ThermalTarget(setup, p.world, a, reading), time, false) else p;
      SafeAll(setup, next, names[1..], reading, time)
  }

  function ApplySafeState(setup: Setup, p: Plant, metrics: Metrics, time: real): Plant
    requires setup.Valid()
  {
    SafeAll(setup, p, setup.registry.actuatorOrder, Lookup(metrics, TemperatureC), time)
  }

  /** The emergency clause: at or above the threshold force the fan on, below it stand down. */
  function Emergency(setup: Setup, p: Plant, metrics: Metrics, time: real): Plant {
    var reading := Lookup(metrics, TemperatureC);
    if reading.Some? && reading.value >= setup.policy.emergencyC then
      var engaged := p.(sup := p.sup.(emergency := true,
        emergencyActivations := p.sup.emergencyActivations + if p.sup.emergency then 0 else 1));
      SetLevel(engaged, Fan, On, time, false)
    else if p.sup.emergency && reading.Some? then p.(sup := p.sup.(emergency := false))
    else p
  }

  /** The miss counter only runs while the installed program declares a heartbeat. */
  function CheckHeartbeat(setup: Setup, s: Supervisor): Supervisor {
    if EmitHeartbeat !in s.allowed then s
    else
      var counted := s.(sinceHeartbeat := s.sinceHeartbeat + 1);
      if counted.sinceHeartbeat > setup.policy.heartbeatMissLimit then EnterSafeState(counted) else counted
  }

  /** What runs before any controller intent, every tick. */
  function EnforceLocalPolicy(setup: Setup, p: Plant, metrics: Metrics, time: real): Plant
    requires setup.Valid()
  {
    var first := Emergency(setup, p, metrics, time);
    var second :=
      if first.sup.state.SafeState? then ApplySafeState(setup, first, metrics, time)
      else ManageUnowned(setup, first, metrics, time);
    second.(sup := CheckHeartbeat(setup, second.sup))
  }

  // ----- Intents -----

  function RecentTransitions(log: seq<Entry>, a: Actuator, since: real): nat {
    if log == [] then 0
    else
      var last := log[|log| - 1];
      RecentTransitions(log[..|log| - 1], a, since) + if last.actuator == a && last.time >= since then 1 else 0
  }

  function TransitionCeiling(entry: CapabilityEntry): int {
    if entry.limits.Some? then entry.limits.value.maxTransitionsPerMinute
    else Config.VERIFY_MAX_ACTUATOR_TRANSITIONS_PER_MIN
  }

  predicate BudgetAllows(setup: Setup, p: Plant, a: Actuator, level: Level, time: real, entry: CapabilityEntry) {
    (a in p.world.actuators && p.world.actuators[a] == level)
    || RecentTransitions(p.sup.log, a, time - setup.policy.windowSeconds) < TransitionCeiling(entry)
  }

  /** The checks an actuator intent passes through, in order; `Applied` means the write goes ahead. */
  function ActuatorVerdict(setup: Setup, p: Plant, spec: IntentSpec, entry: CapabilityEntry, time: real): Verdict {
    if spec.actuator.None? || spec.actuator.value !in setup.registry.actuators then RejectedUnknownActuator
    else
      var a := spec.actuator.value;
      var declared := setup.registry.actuators[a];
      if spec.level.None? || spec.level.value !in declared.levels then RejectedUnknownLevel
      else if spec.pin.None? || spec.pin.value !in entry.permittedPins then RejectedPinNotPermitted
      else if spec.pin.value !in setup.schema.pinout then RejectedPinAbsent
      else if setup.schema.Forbids(spec.pin.value) then RejectedForbiddenPin
      else if setup.schema.pinout[spec.pin.value] != declared.connectedDevice then RejectedHardwareMismatch
      else if setup.schema.maxCurrentMa.Some?
           && (if spec.currentMa.Some? then spec.currentMa.value else 0.0) > setup.schema.maxCurrentMa.value then
        RejectedCurrentLimit
      else if p.sup.emergency && a == Fan && spec.level.value != declared.safeLevelWhenHot then
        RejectedEmergencyOverride
      else if !BudgetAllows(setup, p, a, spec.level.value, time, entry) then RejectedTransitionBudget
      else if a !in p.world.actuators then RejectedValidationError
      else Applied
  }

  function VerdictOn(setup: Setup, p: Plant, intent: Intent, time: real): Verdict {
    var spec := intent.spec;
    if p.sup.state.SafeState? then RejectedSafeState
    else if spec.capability !in setup.registry.capabilities then RejectedUnknownCapability
    else if spec.capability !in p.sup.allowed then RejectedUndeclaredCapability
    else
      var entry := setup.registry.capabilities[spec.capability];
      if !SameKind(entry.kind, spec.kind) then RejectedKindMismatch
      else
        match spec.kind
        case TelemetryIntent => TelemetryEmitted
        case SafetyIntent => SafeStateRequested
        case ActuatorIntent => ActuatorVerdict(setup, p, spec, entry, time)
  }

  predicate SameKind(declared: CapabilityKind, claimed: IntentKind) {
    match claimed
    case ActuatorIntent => declared.ActuatorKind?
    case TelemetryIntent => declared.TelemetryKind?
    case SafetyIntent => declared.SafetyKind?
  }

  /** What accepting or rejecting one intent does to the plant. */
  function Consider(setup: Setup, p: Plant, intent: Intent, time: real): Plant {
    match VerdictOn(setup, p, intent, time)
    case TelemetryEmitted =>
      if intent.spec.event == Some(Heartbeat) then p.(sup := p.sup.(sinceHeartbeat := 0)) else p
    case SafeStateRequested => p.(sup := EnterSafeState(p.sup))
    case Applied => SetLevel(p, intent.spec.actuator.value, intent.spec.level.value, time, true)
    case _ => p
  }

  function ApplyIntents(setup: Setup, p: Plant, intents: seq<Intent>, time: real): Plant
    decreases |intents|
  {
    if intents == [] then p else ApplyIntents(setup, Consider(setup, p, intents[0], time), intents[1..], time)
  }

  function Verdicts(setup: Setup, p: Plant, intents: seq<Intent>, time: real): seq<Verdict>
    decreases |intents|
  {
    if intents == [] then []
    else
      [VerdictOn(setup, p, intents[0], time)]
      + Verdicts(setup, Consider(setup, p, intents[0], time), intents[1..], time)
  }

  // ----- The object -----

  class SafetySupervisor {
    const port: ThermalWorld
    const setup: Setup
    var state: SafetyState
    var emergency: bool
    var emergencyActivations: nat
    var allowed: set<Capability>
    var log: seq<Entry>
    var sinceHeartbeat: int

    function Self(): Supervisor
      reads this
    {
      Supervisor(state, emergency, emergencyActivations, allowed, log, sinceHeartbeat)
    }

    function View(): Plant
      reads this, port
    {
      Plant(port.View(), Self())
    }

    constructor (port: ThermalWorld, setup: Setup)
      ensures this.port == port && this.setup == setup
      ensures Self() == Started()
    {
      this.port := port;
      this.setup := setup;
      state, emergency, emergencyActivations := Normal, false, 0;
      allowed, log, sinceHeartbeat := {}, [], 0;
    }

    method Install(program: Program)
      modifies this
      ensures Self() == InstallProgram(old(Self()), program)
    {
      allowed := program.CapabilitiesUsed();
      sinceHeartbeat := 0;
    }

    method EnterSafe()
      modifies this
      ensures Self() == EnterSafeState(old(Self()))
    {
      if state == SafeState { return; }
      state := SafeState;
    }

    method LeaveSafe()
      modifies this
      ensures Self() == LeaveSafeState(old(Self()))
    {
      state := Normal;
      sinceHeartbeat := 0;
    }

    method Write(a: Actuator, level: Level, time: real, byIntent: bool)
      requires a in port.actuators
      modifies this, port`actuators, port`changes
      ensures View() == SetLevel(old(View()), a, level, time, byIntent)
    {
      if port.actuators[a] == level { return; }
      port.Set(a, level);
      log := log + [Entry(time, a, byIntent)];
    }

    method ReleaseUnowned(metrics: Metrics, time: real)
      requires setup.Valid()
      modifies this, port`actuators, port`changes
      ensures View() == ManageUnowned(setup, old(View()), metrics, time)
    {
      if emergency || state == SafeState { return; }
      if TemperatureC !in metrics || metrics[TemperatureC] >= setup.policy.coolingC { return; }
      var names := setup.registry.actuatorOrder;
      var driven := DrivenActuators(setup, allowed);
      for i := 0 to |names|
        invariant ReleaseAll(setup, old(View()), names, driven, time)
               == ReleaseAll(setup, View(), names[i..], driven, time)
      {
        assert names[i..][1..] == names[i + 1..];
        var a := names[i];
        if a !in driven && a in port.actuators {
          Write(a, setup.registry.actuators[a].defaultLevel, time, false);
        }
      }
    }

    method EnforceSafeState(metrics: Metrics, time: real)
      requires setup.Valid()
      modifies this, port`actuators, port`changes
      ensures View() == ApplySafeState(setup, old(View()), metrics, time)
    {
      var names := setup.registry.actuatorOrder;
      var reading := Lookup(metrics, TemperatureC);
      for i := 0 to |names|
        invariant SafeAll(setup, old(View()), names, reading, time)
               == SafeAll(setup, View(), names[i..], reading, time)
      {
        assert names[i..][1..] == names[i + 1..];
        var a := names[i];
        if a in port.actuators {
          var target := ThermalTarget(setup, port.View(), a, reading);
          Write(a, target, time, false);
        }
      }
    }

    method HandleEmergency(metrics: Metrics, time: real)
      modifies this, port`actuators, port`changes
      ensures View() == Emergency(setup, old(View()), metrics, time)
    {
      var reading := Lookup(metrics, TemperatureC);
      if reading.Some? && reading.value >= setup.policy.emergencyC {
        if !emergency {
          emergency := true;
          emergencyActivations := emergencyActivations + 1;
        }
        Write(Fan, On, time, false);
      } else if emergency && reading.Some? {
        emergency := false;
      }
    }

    method CountHeartbeat()
      modifies this
      ensures Self() == CheckHeartbeat(setup, old(Self()))
    {
      if EmitHeartbeat in allowed {
        sinceHeartbeat := sinceHeartbeat + 1;
        if sinceHeartbeat > setup.policy.heartbeatMissLimit {
          EnterSafe();
        }
      }
    }

    method Enforce(metrics: Metrics, time: real)
      requires setup.Valid()
      modifies this, port`actuators, port`changes
      ensures View() == EnforceLocalPolicy(setup, old(View()), metrics, time)
    {
      HandleEmergency(metrics, time);
      if state == SafeState {
        EnforceSafeState(metrics, time);
      } else {
        ReleaseUnowned(metrics, time);
      }
      CountHeartbeat();
    }

    method ConsiderOne(intent: Intent, time: real) returns (verdict: Verdict)
      modifies this, port`actuators, port`changes
      ensures verdict == VerdictOn(setup, old(View()), intent, time)
      ensures View() == Consider(setup, old(View()), intent, time)
    {
      verdict := VerdictOn(setup, View(), intent, time);
      match verdict {
        case TelemetryEmitted =>
          if intent.spec.event == Some(Heartbeat) { sinceHeartbeat := 0; }
        case SafeStateRequested => EnterSafe();
        case Applied => Write(intent.spec.actuator.value, intent.spec.level.value, time, true);
        case _ =>
      }
    }

    /** Each intent is considered on its own, in order; a rejection stops nothing. */
    method Apply(intents: seq<Intent>, time: real) returns (verdicts: seq<Verdict>)
      modifies this, port`actuators, port`changes
      ensures verdicts == Verdicts(setup, old(View()), intents, time)
      ensures View() == ApplyIntents(setup, old(View()), intents, time)
    {
      verdicts := [];
      for i := 0 to |intents|
        invariant ApplyIntents(setup, old(View()), intents, time)
               == ApplyIntents(setup, View(), intents[i..], time)
        invariant Verdicts(setup, old(View()), intents, time)
               == verdicts + Verdicts(setup, View(), intents[i..], time)
      {
        assert intents[i..][1..] == intents[i + 1..];
        ghost var rest := Verdicts(setup, Consider(setup, View(), intents[i], time), intents[i + 1..], time);
        var verdict := ConsiderOne(intents[i], time);
        assert verdicts + ([verdict] + rest) == (verdicts + [verdict]) + rest;
        verdicts := verdicts + [verdict];
      }
    }
  }
}
