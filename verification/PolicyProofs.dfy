/** The supervisor's own policy, said without its own bodies: the safe state is a thermostat, a normal
    supervisor lets go of what nobody owns, silence is caught, and every write leaves its mark. */
module PolicyProofs {
  import opened Names
  import opened Manifests
  import opened Registries
  import opened Programs
  import opened Worlds
  import opened Supervisors
  import opened SupervisorProofs

  // ----- The safe state -----

  /** Between two readings a thermostat leaves `before` at `after`: hot level from the cooling threshold
      up and without a reading, default level from the foot of the hysteresis band down, and in between
      whatever declared level it was at. */
  predicate Thermostatic(policy: Policy, spec: ActuatorSpec, reading: Option<real>, before: Level, after: Level) {
    && (reading.None? ==> after == spec.safeLevelWhenHot)
    && (reading.Some? && reading.value >= policy.coolingC ==> after == spec.safeLevelWhenHot)
    && (reading.Some? && reading.value < policy.coolingC && reading.value <= policy.coolingC - policy.hysteresisC ==>
          after == spec.defaultLevel)
    && (reading.Some? && policy.coolingC - policy.hysteresisC < reading.value < policy.coolingC ==>
          after == if before in spec.levels then before else spec.defaultLevel)
  }

  lemma {:induction false} SafeAllReaches(setup: Setup, p: Plant, names: seq<Actuator>, reading: Option<real>,
                                          time: real, a: Actuator)
    requires Distinct(names) && forall i :: 0 <= i < |names| ==> names[i] in setup.registry.actuators
    requires a in p.world.actuators
    ensures var q := SafeAll(setup, p, names, reading, time);
      && a in q.world.actuators
      && (a in names ==> Thermostatic(setup.policy, setup.registry.actuators[a], reading, p.world.actuators[a],
                                      q.world.actuators[a]))
      && (a !in names ==> q.world.actuators[a] == p.world.actuators[a])
    decreases |names|
  {
    if names != [] {
      var next := if names[0] in p.world.actuators
        then SetLevel(p, names[0], ThermalTarget(setup, p.world, names[0], reading), time, false) else p;
      SafeAllReaches(setup, next, names[1..], reading, time, a);
    }
  }

  /** What the emergency clause leaves an actuator at before anything else happens. */
  function AfterEmergency(setup: Setup, p: Plant, metrics: Metrics, a: Actuator): Level
    requires a in p.world.actuators
  {
    if a == Fan && TemperatureC in metrics && metrics[TemperatureC] >= setup.policy.emergencyC then On
    else p.world.actuators[a]
  }

  /** Whether cooling is required once a reading has been taken. */
  predicate Required(setup: Setup, p: Plant, metrics: Metrics) {
    if TemperatureC in metrics then metrics[TemperatureC] >= setup.policy.emergencyC else p.sup.emergency
  }

  lemma EmergencyIs(setup: Setup, p: Plant, metrics: Metrics, time: real, a: Actuator)
    requires a in p.world.actuators
    ensures var first := Emergency(setup, p, metrics, time);
      && a in first.world.actuators && first.world.actuators[a] == AfterEmergency(setup, p, metrics, a)
      && first.sup.emergency == Required(setup, p, metrics)
      && first.sup.state == p.sup.state && first.sup.allowed == p.sup.allowed
      && first.sup.sinceHeartbeat == p.sup.sinceHeartbeat
      && first.sup.emergencyActivations
           == p.sup.emergencyActivations + if Required(setup, p, metrics) && !p.sup.emergency then 1 else 0
  {
  }

  /** In safe state one pass of the local policy moves every listed actuator like a thermostat with
      hysteresis, whatever the order of the table. */
  lemma SafeStateIsAThermostat(setup: Setup, p: Plant, metrics: Metrics, time: real, a: Actuator)
    requires setup.Valid() && p.sup.state.SafeState?
    requires a in setup.registry.actuators && a in p.world.actuators
    ensures var q := EnforceLocalPolicy(setup, p, metrics, time);
      && q.sup.state.SafeState? && a in q.world.actuators
      && Thermostatic(setup.policy, setup.registry.actuators[a], Lookup(metrics, TemperatureC),
                      AfterEmergency(setup, p, metrics, a), q.world.actuators[a])
  {
    var first := Emergency(setup, p, metrics, time);
    EmergencyIs(setup, p, metrics, time, a);
    SafeAllReaches(setup, first, setup.registry.actuatorOrder, Lookup(metrics, TemperatureC), time, a);
    SafeAllFrame(setup, first, setup.registry.actuatorOrder, Lookup(metrics, TemperatureC), time);
  }

  // ----- The normal state -----

  /** No capability the installed program may use drives the actuator. */
  predicate Unowned(setup: Setup, allowed: set<Capability>, a: Actuator) {
    forall c :: c in allowed && c in setup.registry.capabilities ==>
      setup.registry.capabilities[c].actuator != Some(a)
  }

  lemma OwnedIsDriven(setup: Setup, allowed: set<Capability>, a: Actuator)
    ensures a in DrivenActuators(setup, allowed) <==> !Unowned(setup, allowed, a)
  {
  }

  lemma {:induction false} ReleaseAllReaches(setup: Setup, p: Plant, names: seq<Actuator>, driven: set<Actuator>,
                                             time: real, a: Actuator)
    requires Distinct(names) && forall i :: 0 <= i < |names| ==> names[i] in setup.registry.actuators
    requires a in p.world.actuators
    ensures var q := ReleaseAll(setup, p, names, driven, time);
      && a in q.world.actuators
      && q.world.actuators[a] == if a in names && a !in driven then setup.registry.actuators[a].defaultLevel
                                 else p.world.actuators[a]
    decreases |names|
  {
    if names != [] {
      var b := names[0];
      var next := if b in driven || b !in p.world.actuators then p
        else SetLevel(p, b, setup.registry.actuators[b].defaultLevel, time, false);
      ReleaseAllReaches(setup, next, names[1..], driven, time, a);
    }
  }

  /** Letting go: exactly the listed actuators nobody owns, exactly on a reading below the cooling
      threshold in a normal state without emergency, go to their default level; nothing is ever engaged. */
  lemma ReleaseMeans(setup: Setup, p: Plant, metrics: Metrics, time: real, a: Actuator)
    requires setup.Valid() && a in p.world.actuators
    ensures var q := ManageUnowned(setup, p, metrics, time);
      && a in q.world.actuators
      && q.world.actuators[a] ==
           if p.sup.state.Normal? && !p.sup.emergency && TemperatureC in metrics
              && metrics[TemperatureC] < setup.policy.coolingC
              && a in setup.registry.actuators && Unowned(setup, p.sup.allowed, a)
           then setup.registry.actuators[a].defaultLevel else p.world.actuators[a]
  {
    OwnedIsDriven(setup, p.sup.allowed, a);
    ReleaseAllReaches(setup, p, setup.registry.actuatorOrder, DrivenActuators(setup, p.sup.allowed), time, a);
  }

  /** The whole pass in normal state: the emergency first, then the release. */
  lemma NormalStateOnlyReleases(setup: Setup, p: Plant, metrics: Metrics, time: real, a: Actuator)
    requires setup.Valid() && p.sup.state.Normal? && a in p.world.actuators
    ensures var q := EnforceLocalPolicy(setup, p, metrics, time);
      && a in q.world.actuators
      && q.world.actuators[a] ==
           if TemperatureC in metrics && metrics[TemperatureC] < setup.policy.coolingC
              && metrics[TemperatureC] < setup.policy.emergencyC
              && a in setup.registry.actuators && Unowned(setup, p.sup.allowed, a)
           then setup.registry.actuators[a].defaultLevel else AfterEmergency(setup, p, metrics, a)
  {
    EmergencyIs(setup, p, metrics, time, a);
    ReleaseMeans(setup, Emergency(setup, p, metrics, time), metrics, time, a);
  }

  // ----- Flags and counters -----

  /** What one pass of the local policy makes of the supervisor's own state, in either state. */
  lemma PolicyFlags(setup: Setup, p: Plant, metrics: Metrics, time: real)
    requires setup.Valid()
    ensures var q := EnforceLocalPolicy(setup, p, metrics, time);
      && q.sup.emergency == Required(setup, p, metrics)
      && q.sup.emergencyActivations
           == p.sup.emergencyActivations + (if Required(setup, p, metrics) && !p.sup.emergency then 1 else 0)
      && q.sup.sinceHeartbeat == p.sup.sinceHeartbeat + (if EmitHeartbeat in p.sup.allowed then 1 else 0)
      && (q.sup.state.SafeState? <==>
            || p.sup.state.SafeState?
            || (EmitHeartbeat in p.sup.allowed && p.sup.sinceHeartbeat + 1 > setup.policy.heartbeatMissLimit))
  {
    var first := Emergency(setup, p, metrics, time);
    EmergencyIs(setup, p, metrics, time, Fan);
    SafeAllFrame(setup, first, setup.registry.actuatorOrder, Lookup(metrics, TemperatureC), time);
    ManageUnownedFrame(setup, first, metrics, time);
  }

  /** Nothing but the passing of ticks: the world moves, the policy runs, reports that are no heartbeat
      and commands are considered. */
  predicate Silent(action: Action) {
    || action.Physics? || action.EnforceAction?
    || (action.ApplyAction?
        && forall i :: 0 <= i < |action.intents| ==>
             !action.intents[i].spec.kind.SafetyIntent? && action.intents[i].spec.event != Some(Heartbeat))
  }

  function Passes(actions: seq<Action>): nat {
    if actions == [] then 0 else (if actions[0].EnforceAction? then 1 else 0) + Passes(actions[1..])
  }

  lemma {:induction false} SilentIntents(setup: Setup, p: Plant, intents: seq<Intent>, time: real)
    requires Silent(ApplyAction(intents, time))
    ensures var q := ApplyIntents(setup, p, intents, time);
      q.sup.state == p.sup.state && q.sup.sinceHeartbeat == p.sup.sinceHeartbeat && q.sup.allowed == p.sup.allowed
    decreases |intents|
  {
    if intents != [] {
      assert forall i :: 0 <= i < |intents[1..]| ==> intents[1..][i] == intents[i + 1];
      SilentIntents(setup, Consider(setup, p, intents[0], time), intents[1..], time);
    }
  }

  /** Silence is caught, and only silence: a program that promised a heartbeat and sends none loses
      control on the first pass after the miss limit, not before. */
  lemma {:induction false} SilenceIsCaught(setup: Setup, p: Plant, actions: seq<Action>)
    requires setup.Valid() && forall i :: 0 <= i < |actions| ==> Silent(actions[i])
    requires p.sup.state.Normal? && EmitHeartbeat in p.sup.allowed
    requires p.sup.sinceHeartbeat <= setup.policy.heartbeatMissLimit
    ensures ActAll(setup, p, actions).sup.state.SafeState?
       <==> p.sup.sinceHeartbeat + Passes(actions) > setup.policy.heartbeatMissLimit
    decreases |actions|
  {
    if actions != [] {
      var next := Act(setup, p, actions[0]);
      assert forall i :: 0 <= i < |actions[1..]| ==> actions[1..][i] == actions[i + 1];
      SilentAct(setup, p, actions[0]);
      if next.sup.state.Normal? {
        SilenceIsCaught(setup, next, actions[1..]);
      } else {
        StaysSafe(setup, next, actions[1..]);
      }
    }
  }

  /** A program is held to its own silence only: installing one starts the count afresh, whatever the one
      before it had missed. */
  lemma {:induction false} EveryProgramIsCountedAfresh(setup: Setup, p: Plant, program: Program, actions: seq<Action>)
    requires setup.Valid() && forall i :: 0 <= i < |actions| ==> Silent(actions[i])
    requires p.sup.state.Normal? && EmitHeartbeat in program.CapabilitiesUsed()
    requires setup.policy.heartbeatMissLimit >= 0
    ensures ActAll(setup, p, [InstallAction(program)] + actions).sup.state.SafeState?
       <==> Passes(actions) > setup.policy.heartbeatMissLimit
  {
    assert ([InstallAction(program)] + actions)[1..] == actions;
    SilenceIsCaught(setup, Act(setup, p, InstallAction(program)), actions);
  }

  lemma SilentAct(setup: Setup, p: Plant, action: Action)
    requires setup.Valid() && Silent(action)
    ensures var q := Act(setup, p, action);
      && q.sup.allowed == p.sup.allowed
      && q.sup.sinceHeartbeat
           == p.sup.sinceHeartbeat + (if action.EnforceAction? && EmitHeartbeat in p.sup.allowed then 1 else 0)
      && (q.sup.state.SafeState? <==>
            || p.sup.state.SafeState?
            || (action.EnforceAction? && EmitHeartbeat in p.sup.allowed
                && p.sup.sinceHeartbeat + 1 > setup.policy.heartbeatMissLimit))
  {
    match action
    case EnforceAction(metrics, time) =>
      PolicyFlags(setup, p, metrics, time);
      EnforceFrame(setup, p, metrics, time);
    case ApplyAction(intents, time) => SilentIntents(setup, p, intents, time);
    case _ =>
  }

  lemma {:induction false} StaysSafe(setup: Setup, p: Plant, actions: seq<Action>)
    requires setup.Valid() && forall i :: 0 <= i < |actions| ==> Silent(actions[i])
    requires p.sup.state.SafeState?
    ensures ActAll(setup, p, actions).sup.state.SafeState?
    decreases |actions|
  {
    if actions != [] {
      assert forall i :: 0 <= i < |actions[1..]| ==> actions[1..][i] == actions[i + 1];
      SilentAct(setup, p, actions[0]);
      StaysSafe(setup, Act(setup, p, actions[0]), actions[1..]);
    }
  }
}
