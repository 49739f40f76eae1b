/** The transition budget over whole runs of one supervisor, and the cooling guarantee of a tick. */
module SupervisorProofs {
  import opened Names
  import opened Programs
  import opened Worlds
  import opened Supervisors

  // ----- Sliding window -----

  /** Anything that can happen to one supervisor instance; `Physics` lets the world change freely. */
  datatype Action =
    | Physics(world: World)
    | InstallAction(program: Program)
    | EnterSafeAction
    | LeaveSafeAction
    | ReleaseAction(metrics: Metrics, time: real)
    | EnforceAction(metrics: Metrics, time: real)
    | ApplyAction(intents: seq<Intent>, time: real)

  function Act(setup: Setup, p: Plant, action: Action): Plant
    requires setup.Valid()
  {
    match action
    case Physics(w) => p.(world := w)
    case InstallAction(program) => p.(sup := InstallProgram(p.sup, program))
    case EnterSafeAction => p.(sup := EnterSafeState(p.sup))
    case LeaveSafeAction => p.(sup := LeaveSafeState(p.sup))
    case ReleaseAction(metrics, time) => ManageUnowned(setup, p, metrics, time)
    case EnforceAction(metrics, time) => EnforceLocalPolicy(setup, p, metrics, time)
    case ApplyAction(intents, time) => ApplyIntents(setup, p, intents, time)
  }

  function ActAll(setup: Setup, p: Plant, actions: seq<Action>): Plant
    requires setup.Valid()
    decreases |actions|
  {
    if actions == [] then p else ActAll(setup, Act(setup, p, actions[0]), actions[1..])
  }

  /** Every intent-caused entry found fewer than `ceiling` entries of its actuator, of either origin,
      in the window that ended with it. */
  predicate Limited(log: seq<Entry>, window: real, ceiling: int) {
    log == [] ||
    var last := log[|log| - 1];
    && Limited(log[..|log| - 1], window, ceiling)
    && (last.byIntent ==> RecentTransitions(log[..|log| - 1], last.actuator, last.time - window) < ceiling)
  }

  lemma LimitedAppend(log: seq<Entry>, e: Entry, window: real, ceiling: int)
    requires Limited(log, window, ceiling)
    requires e.byIntent ==> RecentTransitions(log, e.actuator, e.time - window) < ceiling
    ensures Limited(log + [e], window, ceiling)
  {
    assert (log + [e])[..|log|] == log;
  }

  lemma OwnWritesKeepLimit(p: Plant, a: Actuator, level: Level, time: real, window: real, ceiling: int)
    requires a in p.world.actuators && Limited(p.sup.log, window, ceiling)
    ensures Limited(SetLevel(p, a, level, time, false).sup.log, window, ceiling)
  {
    LimitedAppend(p.sup.log, Entry(time, a, false), window, ceiling);
  }

  lemma {:induction false} ReleaseKeepsLimit(setup: Setup, p: Plant, names: seq<Actuator>, driven: set<Actuator>,
                                             time: real, window: real, ceiling: int)
    requires forall i :: 0 <= i < |names| ==> names[i] in setup.registry.actuators
    requires Limited(p.sup.log, window, ceiling)
    ensures Limited(ReleaseAll(setup, p, names, driven, time).sup.log, window, ceiling)
    decreases |names|
  {
    if names != [] {
      var a := names[0];
      if a in driven || a !in p.world.actuators {
        ReleaseKeepsLimit(setup, p, names[1..], driven, time, window, ceiling);
      } else {
        var level := setup.registry.actuators[a].defaultLevel;
        OwnWritesKeepLimit(p, a, level, time, window, ceiling);
        ReleaseKeepsLimit(setup, SetLevel(p, a, level, time, false), names[1..], driven, time, window, ceiling);
      }
    }
  }

  lemma {:induction false} SafeKeepsLimit(setup: Setup, p: Plant, names: seq<Actuator>, reading: Option<real>,
                                          time: real, window: real, ceiling: int)
    requires forall i :: 0 <= i < |names| ==> names[i] in setup.registry.actuators
    requires Limited(p.sup.log, window, ceiling)
    ensures Limited(SafeAll(setup, p, names, reading, time).sup.log, window, ceiling)
    decreases |names|
  {
    if names != [] {
      var a := names[0];
      if a in p.world.actuators {
        var level := ThermalTarget(setup, p.world, a, reading);
        OwnWritesKeepLimit(p, a, level, time, window, ceiling);
        SafeKeepsLimit(setup, SetLevel(p, a, level, time, false), names[1..], reading, time, window, ceiling);
      } else {
        SafeKeepsLimit(setup, p, names[1..], reading, time, window, ceiling);
      }
    }
  }

  /** No capability of the registry has a ceiling above `ceiling`. */
  predicate CeilingsWithin(setup: Setup, ceiling: int) {
    forall c :: c in setup.registry.capabilities ==> TransitionCeiling(setup.registry.capabilities[c]) <= ceiling
  }

  lemma ConsiderKeepsLimit(setup: Setup, p: Plant, intent: Intent, time: real, ceiling: int)
    requires CeilingsWithin(setup, ceiling) && Limited(p.sup.log, setup.policy.windowSeconds, ceiling)
    ensures Limited(Consider(setup, p, intent, time).sup.log, setup.policy.windowSeconds, ceiling)
  {
    if VerdictOn(setup, p, intent, time).Applied? {
      var a := intent.spec.actuator.value;
      if p.world.actuators[a] != intent.spec.level.value {
        LimitedAppend(p.sup.log, Entry(time, a, true), setup.policy.windowSeconds, ceiling);
      }
    }
  }

  lemma {:induction false} ApplyKeepsLimit(setup: Setup, p: Plant, intents: seq<Intent>, time: real, ceiling: int)
    requires CeilingsWithin(setup, ceiling) && Limited(p.sup.log, setup.policy.windowSeconds, ceiling)
    ensures Limited(ApplyIntents(setup, p, intents, time).sup.log, setup.policy.windowSeconds, ceiling)
    decreases |intents|
  {
    if intents != [] {
      ConsiderKeepsLimit(setup, p, intents[0], time, ceiling);
      ApplyKeepsLimit(setup, Consider(setup, p, intents[0], time), intents[1..], time, ceiling);
    }
  }

  lemma EnforceKeepsLimit(setup: Setup, p: Plant, metrics: Metrics, time: real, window: real, ceiling: int)
    requires setup.Valid() && Limited(p.sup.log, window, ceiling)
    ensures Limited(EnforceLocalPolicy(setup, p, metrics, time).sup.log, window, ceiling)
  {
    var first := Emergency(setup, p, metrics, time);
    LimitedAppend(p.sup.log, Entry(time, Fan, false), window, ceiling);
    assert Limited(first.sup.log, window, ceiling);
    SafeKeepsLimit(setup, first, setup.registry.actuatorOrder, Lookup(metrics, TemperatureC), time, window, ceiling);
    ReleaseKeepsLimit(setup, first, setup.registry.actuatorOrder, DrivenActuators(setup, first.sup.allowed), time,
                      window, ceiling);
  }

  lemma ActKeepsLimit(setup: Setup, p: Plant, action: Action, ceiling: int)
    requires setup.Valid() && CeilingsWithin(setup, ceiling)
    requires Limited(p.sup.log, setup.policy.windowSeconds, ceiling)
    ensures Limited(Act(setup, p, action).sup.log, setup.policy.windowSeconds, ceiling)
  {
    match action
    case ReleaseAction(metrics, time) =>
      ReleaseKeepsLimit(setup, p, setup.registry.actuatorOrder, DrivenActuators(setup, p.sup.allowed), time,
                        setup.policy.windowSeconds, ceiling);
    case EnforceAction(metrics, time) =>
      EnforceKeepsLimit(setup, p, metrics, time, setup.policy.windowSeconds, ceiling);
    case ApplyAction(intents, time) => ApplyKeepsLimit(setup, p, intents, time, ceiling);
    case _ =>
  }

  lemma {:induction false} RunKeepsLimit(setup: Setup, p: Plant, actions: seq<Action>, ceiling: int)
    requires setup.Valid() && CeilingsWithin(setup, ceiling)
    requires Limited(p.sup.log, setup.policy.windowSeconds, ceiling)
    ensures Limited(ActAll(setup, p, actions).sup.log, setup.policy.windowSeconds, ceiling)
    decreases |actions|
  {
    if actions != [] {
      ActKeepsLimit(setup, p, actions[0], ceiling);
      RunKeepsLimit(setup, Act(setup, p, actions[0]), actions[1..], ceiling);
    }
  }

  /** Controller-caused transitions of an actuator with a time in [from, until]. */
  function IntentTransitions(log: seq<Entry>, a: Actuator, from: real, until: real): nat {
    if log == [] then 0
    else
      var last := log[|log| - 1];
      IntentTransitions(log[..|log| - 1], a, from, until)
      + if last.byIntent && last.actuator == a && from <= last.time <= until then 1 else 0
  }

  lemma {:induction false} IntentsAreAmongRecent(log: seq<Entry>, a: Actuator, from: real, until: real, since: real)
    requires since <= from
    ensures IntentTransitions(log, a, from, until) <= RecentTransitions(log, a, since)
  {
    if log != [] {
      IntentsAreAmongRecent(log[..|log| - 1], a, from, until, since);
    }
  }

  lemma {:induction false} LimitedBoundsWindow(log: seq<Entry>, a: Actuator, from: real, window: real, ceiling: int)
    requires Limited(log, window, ceiling) && ceiling >= 0
    ensures IntentTransitions(log, a, from, from + window) <= ceiling
  {
    if log != [] {
      var last := log[|log| - 1];
      LimitedBoundsWindow(log[..|log| - 1], a, from, window, ceiling);
      if last.byIntent && last.actuator == a && from <= last.time <= from + window {
        IntentsAreAmongRecent(log[..|log| - 1], a, from, from + window, last.time - window);
      }
    }
  }

  /** Whatever happens to a supervisor from its creation on, in whatever order and at whatever
      times, no window of the policy's length ever holds more controller-caused transitions of an
      actuator than the largest ceiling, although the supervisor's own writes share the log. */
  lemma SlidingWindowBound(setup: Setup, world: World, actions: seq<Action>, a: Actuator, from: real, ceiling: int)
    requires setup.Valid() && CeilingsWithin(setup, ceiling) && ceiling >= 0
    ensures IntentTransitions(ActAll(setup, Plant(world, Started()), actions).sup.log, a,
                              from, from + setup.policy.windowSeconds) <= ceiling
  {
    RunKeepsLimit(setup, Plant(world, Started()), actions, ceiling);
    LimitedBoundsWindow(ActAll(setup, Plant(world, Started()), actions).sup.log, a, from,
                        setup.policy.windowSeconds, ceiling);
  }

  // ----- Cooling guarantee -----

  /** The fan's hot level is "on", if the registry knows a fan, and the safe state engages no later
      than the emergency does. */
  predicate CoolsWhenHot(setup: Setup) {
    && setup.Valid()
    && (Fan in setup.registry.actuators ==> setup.registry.actuators[Fan].safeLevelWhenHot == On)
    && setup.policy.coolingC <= setup.policy.emergencyC
  }

  /** Cooling is required and delivered. */
  predicate CoolingOn(p: Plant) { p.sup.emergency && p.world.actuators[Fan] == On }

  /** Only actuators, the log and the supervisor move; the physics does not. */
  predicate SamePhysics(p: Plant, q: Plant) {
    && q.world == p.world.(actuators := q.world.actuators, changes := q.world.changes)
  }

  lemma {:induction false} SafeAllFrame(setup: Setup, p: Plant, names: seq<Actuator>, reading: Option<real>,
                                        time: real)
    requires forall i :: 0 <= i < |names| ==> names[i] in setup.registry.actuators
    ensures var q := SafeAll(setup, p, names, reading, time);
      && SamePhysics(p, q) && q.sup == p.sup.(log := q.sup.log)
    decreases |names|
  {
    if names != [] {
      var a := names[0];
      if a in p.world.actuators {
        var level := ThermalTarget(setup, p.world, a, reading);
        SafeAllFrame(setup, SetLevel(p, a, level, time, false), names[1..], reading, time);
      } else {
        SafeAllFrame(setup, p, names[1..], reading, time);
      }
    }
  }

  lemma {:induction false} SafeAllCools(setup: Setup, p: Plant, names: seq<Actuator>, reading: real, time: real)
    requires CoolsWhenHot(setup) && forall i :: 0 <= i < |names| ==> names[i] in setup.registry.actuators
    requires p.world.actuators[Fan] == On && reading >= setup.policy.emergencyC
    ensures SafeAll(setup, p, names, Some(reading), time).world.actuators[Fan] == On
    decreases |names|
  {
    if names != [] {
      var a := names[0];
      if a in p.world.actuators {
        var level := ThermalTarget(setup, p.world, a, Some(reading));
        SafeAllCools(setup, SetLevel(p, a, level, time, false), names[1..], reading, time);
      } else {
        SafeAllCools(setup, p, names[1..], reading, time);
      }
    }
  }

  lemma {:induction false} ReleaseAllFrame(setup: Setup, p: Plant, names: seq<Actuator>, driven: set<Actuator>,
                                           time: real)
    requires forall i :: 0 <= i < |names| ==> names[i] in setup.registry.actuators
    ensures var q := ReleaseAll(setup, p, names, driven, time);
      && SamePhysics(p, q) && q.sup == p.sup.(log := q.sup.log)
    decreases |names|
  {
    if names != [] {
      var a := names[0];
      if a in driven || a !in p.world.actuators {
        ReleaseAllFrame(setup, p, names[1..], driven, time);
      } else {
        ReleaseAllFrame(setup, SetLevel(p, a, setup.registry.actuators[a].defaultLevel, time, false), names[1..],
                        driven, time);
      }
    }
  }

  lemma ManageUnownedFrame(setup: Setup, p: Plant, metrics: Metrics, time: real)
    requires setup.Valid()
    ensures var q := ManageUnowned(setup, p, metrics, time);
      && SamePhysics(p, q) && q.sup == p.sup.(log := q.sup.log) && (p.sup.emergency ==> q == p)
  {
    ReleaseAllFrame(setup, p, setup.registry.actuatorOrder, DrivenActuators(setup, p.sup.allowed), time);
  }

  /** The local policy writes actuators only: the physics and the installed program stay. */
  lemma EnforceFrame(setup: Setup, p: Plant, metrics: Metrics, time: real)
    requires setup.Valid()
    ensures var q := EnforceLocalPolicy(setup, p, metrics, time);
      SamePhysics(p, q) && q.sup.allowed == p.sup.allowed
  {
    var first := Emergency(setup, p, metrics, time);
    SafeAllFrame(setup, first, setup.registry.actuatorOrder, Lookup(metrics, TemperatureC), time);
    ManageUnownedFrame(setup, first, metrics, time);
  }

  /** After the local policy has run on a reading: at or above the emergency threshold the fan is on
      and marked as required, below it the emergency is over. */
  lemma EnforceCools(setup: Setup, p: Plant, metrics: Metrics, time: real)
    requires CoolsWhenHot(setup) && TemperatureC in metrics
    ensures var q := EnforceLocalPolicy(setup, p, metrics, time);
      && (metrics[TemperatureC] >= setup.policy.emergencyC ==> CoolingOn(q))
      && (metrics[TemperatureC] < setup.policy.emergencyC ==> !q.sup.emergency)
  {
    var first := Emergency(setup, p, metrics, time);
    var reading := metrics[TemperatureC];
    SafeAllFrame(setup, first, setup.registry.actuatorOrder, Some(reading), time);
    ManageUnownedFrame(setup, first, metrics, time);
    if first.sup.state.SafeState? && reading >= setup.policy.emergencyC {
      SafeAllCools(setup, first, setup.registry.actuatorOrder, reading, time);
    }
  }

  /** While cooling is required no list of intents, whatever it asks for, takes it away. */
  lemma {:induction false} IntentsCannotStopCooling(setup: Setup, p: Plant, intents: seq<Intent>, time: real)
    requires CoolsWhenHot(setup)
    ensures var q := ApplyIntents(setup, p, intents, time);
      && SamePhysics(p, q) && q.sup.emergency == p.sup.emergency && q.sup.allowed == p.sup.allowed
      && (CoolingOn(p) ==> CoolingOn(q))
    decreases |intents|
  {
    if intents != [] {
      IntentsCannotStopCooling(setup, Consider(setup, p, intents[0], time), intents[1..], time);
    }
  }

  /** No intent touches the physics or the installed program. */
  lemma {:induction false} IntentsFrame(setup: Setup, p: Plant, intents: seq<Intent>, time: real)
    ensures var q := ApplyIntents(setup, p, intents, time);
      SamePhysics(p, q) && q.sup.allowed == p.sup.allowed
    decreases |intents|
  {
    if intents != [] {
      IntentsFrame(setup, Consider(setup, p, intents[0], time), intents[1..], time);
    }
  }
}
