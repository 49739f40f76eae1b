/** What a list of intents can and cannot do: which are accepted, what the accepted ones change, where
    control ends, and how every write is accounted for. */
module IntentProofs {
  import opened Names
  import opened Registries
  import opened Programs
  import opened Worlds
  import opened Supervisors
  import opened SupervisorProofs
  import Config

  // ----- One intent -----

  predicate Accepted(v: Verdict) { v.TelemetryEmitted? || v.SafeStateRequested? || v.Applied? }

  /** Authorised: known, declared by the installed program, and of the kind the registry gives it. */
  predicate Authorised(setup: Setup, allowed: set<Capability>, spec: IntentSpec) {
    && spec.capability in setup.registry.capabilities && spec.capability in allowed
    && match setup.registry.capabilities[spec.capability].kind
       case ActuatorKind => spec.kind.ActuatorIntent?
       case TelemetryKind => spec.kind.TelemetryIntent?
       case SafetyKind => spec.kind.SafetyIntent?
       case SensorKind => false
  }

  /** Names a declared level of a listed actuator, on a permitted, wired, unforbidden pin that the actuator
      sits on, within the current limit. */
  predicate WellAimed(setup: Setup, spec: IntentSpec)
    requires spec.capability in setup.registry.capabilities
  {
    && spec.actuator.Some? && spec.actuator.value in setup.registry.actuators
    && spec.level.Some? && spec.level.value in setup.registry.actuators[spec.actuator.value].levels
    && spec.pin.Some? && spec.pin.value in setup.registry.capabilities[spec.capability].permittedPins
    && spec.pin.value in setup.schema.pinout && !setup.schema.Forbids(spec.pin.value)
    && setup.schema.pinout[spec.pin.value] == setup.registry.actuators[spec.actuator.value].connectedDevice
    && (setup.schema.maxCurrentMa.Some? && spec.currentMa.Some? ==>
          spec.currentMa.value <= setup.schema.maxCurrentMa.value)
    && (setup.schema.maxCurrentMa.Some? && spec.currentMa.None? ==> setup.schema.maxCurrentMa.value >= 0.0)
  }

  /** The entries of an actuator from a time on. */
  function Entries(log: seq<Entry>, a: Actuator, since: real): set<int> {
    set i | 0 <= i < |log| && log[i].actuator == a && log[i].time >= since
  }

  lemma {:induction false} RecentAreCounted(log: seq<Entry>, a: Actuator, since: real)
    ensures RecentTransitions(log, a, since) == |Entries(log, a, since)|
  {
    if log != [] {
      var n := |log| - 1;
      RecentAreCounted(log[..n], a, since);
      if log[n].actuator == a && log[n].time >= since {
        assert Entries(log, a, since) == Entries(log[..n], a, since) + {n};
      } else {
        assert Entries(log, a, since) == Entries(log[..n], a, since);
      }
    }
  }

  /** The most transitions a window may hold by a capability's own limits, or by the general one. */
  function CeilingOf(setup: Setup, c: Capability): int
    requires c in setup.registry.capabilities
  {
    var limits := setup.registry.capabilities[c].limits;
    if limits.Some? then limits.value.maxTransitionsPerMinute else Config.VERIFY_MAX_ACTUATOR_TRANSITIONS_PER_MIN
  }

  /** Permitted at the moment: no emergency stands against it, and there is room in the window unless the
      actuator is there already. */
  predicate Timely(setup: Setup, p: Plant, spec: IntentSpec, time: real)
    requires spec.capability in setup.registry.capabilities && WellAimed(setup, spec)
  {
    var a := spec.actuator.value;
    && a in p.world.actuators
    && (p.sup.emergency && a == Fan ==> spec.level.value == setup.registry.actuators[a].safeLevelWhenHot)
    && (p.world.actuators[a] == spec.level.value
        || |Entries(p.sup.log, a, time - setup.policy.windowSeconds)| < CeilingOf(setup, spec.capability))
  }

  /** Acceptance is exact: an intent is accepted if and only if the state is normal and the intent is
      authorised and, if it drives an actuator, well aimed and timely. */
  lemma AcceptedExactlyWhen(setup: Setup, p: Plant, intent: Intent, time: real)
    ensures Accepted(VerdictOn(setup, p, intent, time)) <==>
      && p.sup.state.Normal? && Authorised(setup, p.sup.allowed, intent.spec)
      && (intent.spec.kind.ActuatorIntent? ==> WellAimed(setup, intent.spec) && Timely(setup, p, intent.spec, time))
  {
    if intent.spec.actuator.Some? {
      RecentAreCounted(p.sup.log, intent.spec.actuator.value, time - setup.policy.windowSeconds);
    }
  }

  /** What an accepted intent does, by its kind, and that a refused one does nothing. */
  lemma OneIntentDoes(setup: Setup, p: Plant, intent: Intent, time: real)
    ensures var v, q := VerdictOn(setup, p, intent, time), Consider(setup, p, intent, time);
      && (!Accepted(v) ==> q == p)
      && (Accepted(v) ==>
            match intent.spec.kind
            case TelemetryIntent =>
              && v.TelemetryEmitted? && q.world == p.world
              && q.sup == p.sup.(sinceHeartbeat := if intent.spec.event == Some(Heartbeat) then 0
                                                   else p.sup.sinceHeartbeat)
            case SafetyIntent => v.SafeStateRequested? && q == p.(sup := p.sup.(state := SafeState))
            case ActuatorIntent =>
              && v.Applied? && intent.spec.actuator.Some? && intent.spec.level.Some?
              && var a, level := intent.spec.actuator.value, intent.spec.level.value;
              && a in p.world.actuators && q.world.actuators == p.world.actuators[a := level]
              && SamePhysics(p, q)
              && q.sup == p.sup.(log := p.sup.log
                             + if p.world.actuators[a] == level then [] else [Entry(time, a, true)]))
  {
  }

  /** Where a ground for refusal comes in the order in which they are looked at; no other verdict is one. */
  function Rank(v: Verdict): nat {
    match v
    case RejectedSafeState => 0
    case RejectedUnknownCapability => 1
    case RejectedUndeclaredCapability => 2
    case RejectedKindMismatch => 3
    case RejectedUnknownActuator => 4
    case RejectedUnknownLevel => 5
    case RejectedPinNotPermitted => 6
    case RejectedPinAbsent => 7
    case RejectedForbiddenPin => 8
    case RejectedHardwareMismatch => 9
    case RejectedCurrentLimit => 10
    case RejectedEmergencyOverride => 11
    case RejectedTransitionBudget => 12
    case RejectedValidationError => 13
    case _ => 14
  }

  /** Whether a ground stands against an intent, taken by itself. */
  predicate Stands(setup: Setup, p: Plant, spec: IntentSpec, time: real, ground: Verdict) {
    var known := spec.capability in setup.registry.capabilities;
    var listed := spec.actuator.Some? && spec.actuator.value in setup.registry.actuators;
    match ground
    case RejectedSafeState => p.sup.state.SafeState?
    case RejectedUnknownCapability => !known
    case RejectedUndeclaredCapability => spec.capability !in p.sup.allowed
    case RejectedKindMismatch => !Authorised(setup, p.sup.allowed + {spec.capability}, spec)
    case RejectedUnknownActuator => spec.kind.ActuatorIntent? && !listed
    case RejectedUnknownLevel =>
      spec.kind.ActuatorIntent? && listed
      && (spec.level.None? || spec.level.value !in setup.registry.actuators[spec.actuator.value].levels)
    case RejectedPinNotPermitted =>
      spec.kind.ActuatorIntent? && known
      && (spec.pin.None? || spec.pin.value !in setup.registry.capabilities[spec.capability].permittedPins)
    case RejectedPinAbsent => spec.kind.ActuatorIntent? && spec.pin.Some? && spec.pin.value !in setup.schema.pinout
    case RejectedForbiddenPin => spec.kind.ActuatorIntent? && spec.pin.Some? && setup.schema.Forbids(spec.pin.value)
    case RejectedHardwareMismatch =>
      spec.kind.ActuatorIntent? && listed && spec.pin.Some? && spec.pin.value in setup.schema.pinout
      && setup.schema.pinout[spec.pin.value] != setup.registry.actuators[spec.actuator.value].connectedDevice
    case RejectedCurrentLimit =>
      spec.kind.ActuatorIntent? && setup.schema.maxCurrentMa.Some?
      && (if spec.currentMa.Some? then spec.currentMa.value else 0.0) > setup.schema.maxCurrentMa.value
    case RejectedEmergencyOverride =>
      spec.kind.ActuatorIntent? && listed && p.sup.emergency && spec.actuator == Some(Fan)
      && spec.level != Some(setup.registry.actuators[Fan].safeLevelWhenHot)
    case RejectedTransitionBudget =>
      spec.kind.ActuatorIntent? && spec.actuator.Some? && known
      && !(spec.actuator.value in p.world.actuators && Some(p.world.actuators[spec.actuator.value]) == spec.level)
      && |Entries(p.sup.log, spec.actuator.value, time - setup.policy.windowSeconds)|
           >= CeilingOf(setup, spec.capability)
    case RejectedValidationError =>
      spec.kind.ActuatorIntent? && spec.actuator.Some? && spec.actuator.value !in p.world.actuators
    case _ => false
  }

  lemma NamedIsFirst(setup: Setup, p: Plant, intent: Intent, time: real, g: Verdict)
    ensures var v := VerdictOn(setup, p, intent, time);
      && (Rank(v) < 14 ==> Stands(setup, p, intent.spec, time, v))
      && (Rank(g) < Rank(v) || Rank(g) == 14 ==> !Stands(setup, p, intent.spec, time, g))
  {
    if intent.spec.actuator.Some? {
      RecentAreCounted(p.sup.log, intent.spec.actuator.value, time - setup.policy.windowSeconds);
    }
  }

  /** The verdict is the first ground that stands; where none stands the intent is accepted. */
  lemma TheFirstGroundIsNamed(setup: Setup, p: Plant, intent: Intent, time: real)
    ensures var v := VerdictOn(setup, p, intent, time);
      && (Accepted(v) <==> forall g :: !Stands(setup, p, intent.spec, time, g))
      && (forall g {:trigger Stands(setup, p, intent.spec, time, g)} :: Rank(g) < 14 ==>
            (v == g <==> Stands(setup, p, intent.spec, time, g)
                         && forall h :: Rank(h) < Rank(g) ==> !Stands(setup, p, intent.spec, time, h)))
  {
    forall g ensures var v := VerdictOn(setup, p, intent, time);
      && (Rank(v) < 14 ==> Stands(setup, p, intent.spec, time, v))
      && (Rank(g) < Rank(v) || Rank(g) == 14 ==> !Stands(setup, p, intent.spec, time, g))
    {
      NamedIsFirst(setup, p, intent, time, g);
    }
    var v := VerdictOn(setup, p, intent, time);
    NamedIsFirst(setup, p, intent, time, v);
    assert Rank(v) < 14 ==> Stands(setup, p, intent.spec, time, v);
  }

  // ----- Whole lists -----

  lemma {:induction false} SafeStateRefusesAll(setup: Setup, p: Plant, intents: seq<Intent>, time: real)
    requires p.sup.state.SafeState?
    ensures ApplyIntents(setup, p, intents, time) == p
    ensures var vs := Verdicts(setup, p, intents, time);
      |vs| == |intents| && forall i :: 0 <= i < |vs| ==> vs[i] == RejectedSafeState
    decreases |intents|
  {
    if intents != [] {
      SafeStateRefusesAll(setup, p, intents[1..], time);
    }
  }

  /** Where control ends: after a list considered in normal state the supervisor is in safe state if and
      only if some intent of the list asked for it and was granted; every intent behind the first such
      one is refused for that, and the plant stays as that one left it. */
  lemma {:induction false} ControlEndsAtTheFirstRequest(setup: Setup, p: Plant, intents: seq<Intent>, time: real)
    requires p.sup.state.Normal?
    ensures var vs, q := Verdicts(setup, p, intents, time), ApplyIntents(setup, p, intents, time);
      && |vs| == |intents|
      && (q.sup.state.SafeState? <==> SafeStateRequested in vs)
      && (forall i, j :: 0 <= i < j < |vs| && vs[i].SafeStateRequested? ==> vs[j] == RejectedSafeState)
      && (forall i :: 0 <= i < |vs| && vs[i].SafeStateRequested? ==>
            var before := ApplyIntents(setup, p, intents[..i], time);
            q == before.(sup := before.sup.(state := SafeState)))
    decreases |intents|
  {
    if intents != [] {
      var next, rest := Consider(setup, p, intents[0], time), intents[1..];
      OneIntentDoes(setup, p, intents[0], time);
      if next.sup.state.SafeState? {
        SafeStateRefusesAll(setup, next, rest, time);
        assert intents[..0] == [];
      } else {
        ControlEndsAtTheFirstRequest(setup, next, rest, time);
        forall i | 1 <= i < |intents|
          ensures ApplyIntents(setup, p, intents[..i], time) == ApplyIntents(setup, next, rest[..i - 1], time)
        {
          assert intents[..i][1..] == rest[..i - 1];
        }
      }
    }
  }

  /** The level the last applied intent gave an actuator, or the one it had. */
  function LastApplied(before: Level, intents: seq<Intent>, verdicts: seq<Verdict>, a: Actuator): Level
    requires |intents| == |verdicts|
    decreases |intents|
  {
    if intents == [] then before
    else
      var n := |intents| - 1;
      if verdicts[n].Applied? && intents[n].spec.actuator == Some(a) && intents[n].spec.level.Some?
      then intents[n].spec.level.value
      else LastApplied(before, intents[..n], verdicts[..n], a)
  }

  lemma {:induction false} LastAppliedCons(before: Level, intents: seq<Intent>, verdicts: seq<Verdict>, a: Actuator)
    requires |intents| == |verdicts| > 0
    ensures LastApplied(before, intents, verdicts, a)
         == LastApplied(LastApplied(before, intents[..1], verdicts[..1], a), intents[1..], verdicts[1..], a)
    decreases |intents|
  {
    var n := |intents| - 1;
    if n == 0 {
      assert intents[..1] == intents && verdicts[..1] == verdicts;
    } else {
      assert intents[1..][..n - 1] == intents[..n][1..] && verdicts[1..][..n - 1] == verdicts[..n][1..];
      assert intents[..n][..1] == intents[..1] && verdicts[..n][..1] == verdicts[..1];
      LastAppliedCons(before, intents[..n], verdicts[..n], a);
    }
  }

  lemma OneApplied(setup: Setup, p: Plant, intents: seq<Intent>, verdicts: seq<Verdict>, time: real, a: Actuator)
    requires |intents| == |verdicts| > 0 && verdicts[0] == VerdictOn(setup, p, intents[0], time)
    requires a in p.world.actuators
    ensures var q := Consider(setup, p, intents[0], time);
      && a in q.world.actuators
      && q.world.actuators[a] == LastApplied(p.world.actuators[a], intents[..1], verdicts[..1], a)
  {
    OneIntentDoes(setup, p, intents[0], time);
    assert intents[..1][..0] == [] && verdicts[..1][..0] == [];
  }

  /** After a list every actuator stands where the last applied intent put it, and the miss counter has
      been reset exactly by an accepted heartbeat. */
  lemma {:induction false} TheLastWordCounts(setup: Setup, p: Plant, intents: seq<Intent>, time: real, a: Actuator)
    requires a in p.world.actuators
    ensures var vs, q := Verdicts(setup, p, intents, time), ApplyIntents(setup, p, intents, time);
      && |vs| == |intents| && a in q.world.actuators
      && q.world.actuators[a] == LastApplied(p.world.actuators[a], intents, vs, a)
      && q.sup.sinceHeartbeat ==
           if exists i :: 0 <= i < |vs| && vs[i].TelemetryEmitted? && intents[i].spec.event == Some(Heartbeat)
           then 0 else p.sup.sinceHeartbeat
    decreases |intents|
  {
    if intents != [] {
      var next, rest := Consider(setup, p, intents[0], time), intents[1..];
      var vs := Verdicts(setup, p, intents, time);
      TheLastWordCounts(setup, next, rest, time, a);
      OneIntentDoes(setup, p, intents[0], time);
      OneApplied(setup, p, intents, vs, time, a);
      assert vs[1..] == Verdicts(setup, next, rest, time);
      LastAppliedCons(p.world.actuators[a], intents, vs, a);
      HeartbeatCons(intents, vs);
    }
  }

  predicate Beaten(intents: seq<Intent>, vs: seq<Verdict>)
    requires |intents| == |vs|
  {
    exists i :: 0 <= i < |vs| && vs[i].TelemetryEmitted? && intents[i].spec.event == Some(Heartbeat)
  }

  lemma HeartbeatCons(intents: seq<Intent>, vs: seq<Verdict>)
    requires |intents| == |vs| > 0
    ensures Beaten(intents, vs) <==>
      (vs[0].TelemetryEmitted? && intents[0].spec.event == Some(Heartbeat)) || Beaten(intents[1..], vs[1..])
  {
    if Beaten(intents, vs) {
      var i :| 0 <= i < |vs| && vs[i].TelemetryEmitted? && intents[i].spec.event == Some(Heartbeat);
      if i > 0 {
        assert vs[1..][i - 1] == vs[i] && intents[1..][i - 1] == intents[i];
      }
    }
    if Beaten(intents[1..], vs[1..]) {
      var i :| 0 <= i < |vs[1..]| && vs[1..][i].TelemetryEmitted? && intents[1..][i].spec.event == Some(Heartbeat);
      assert vs[1..][i] == vs[i + 1] && intents[1..][i] == intents[i + 1];
    }
  }
}
