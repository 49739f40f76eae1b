/** From manifest to device: what a fallback choice means for the fan when a morph goes, and what becomes of
    a morph that only ever asks for the safe state. */
module PromiseProofs {
  import opened Names
  import opened Manifests
  import opened Registries
  import opened Programs
  import opened Worlds
  import opened Supervisors
  import opened SupervisorProofs
  import opened PolicyProofs
  import opened IntentProofs
  import opened Runtime
  import opened Harness
  import opened Slots
  import opened Devices
  import opened DeviceSlots
  import opened DeviceRuns
  import opened DeviceOutcomes
  import opened CompiledMeaning
  import CompilerProofs
  import Compiler
  import Validator
  import R = RuntimeProofs

  // ----- The way out -----

  /** On its way out a controller emits the whole declared fallback, once each and in order. */
  lemma FallbackIsEmittedWhole(c: Controller)
    ensures var e := Shutdown(c);
      && e.after == c.(yielded := true) && |e.intents| == |c.program.fallback|
      && forall i :: 0 <= i < |e.intents| ==> e.intents[i] == Intent(c.program.fallback[i], c.steps)
  {
  }

  /** At the end of its lifetime it does so once, and from then on says nothing. */
  lemma YieldsOnce(c: Controller, o: Observation)
    requires c.startedAt.Some? && !OverBudget(c.program)
    requires o.time - c.startedAt.value >= c.program.maximumDurationSeconds as real
    ensures var result := Step(c, o);
      && result.Stepped? && result.emission.after.yielded && result.emission.after.steps == c.steps + 1
      && |result.emission.intents| == (if c.yielded then 0 else |c.program.fallback|)
      && forall i :: 0 <= i < |result.emission.intents| ==>
           result.emission.intents[i] == Intent(c.program.fallback[i], c.steps + 1)
  {
    FallbackIsEmittedWhole(R.Counted(c));
  }

  lemma {:induction false} IntentsKeepEmergency(setup: Setup, p: Plant, intents: seq<Intent>, time: real)
    ensures ApplyIntents(setup, p, intents, time).sup.emergency == p.sup.emergency
    decreases |intents|
  {
    if intents != [] {
      IntentsKeepEmergency(setup, Consider(setup, p, intents[0], time), intents[1..], time);
    }
  }

  /** Whether the supervisor lets go of an actuator after a program has been put in charge. */
  predicate LetGo(setup: Setup, p: Plant, program: Program, a: Actuator) {
    && !p.sup.emergency && Reading(p.world) < setup.policy.coolingC
    && a in setup.registry.actuators && Unowned(setup, program.CapabilitiesUsed(), a)
  }

  lemma HandoverLeaves(fx: Fixture, left: Device, program: Program, a: Actuator)
    requires fx.setup.Valid() && a in left.plant.world.actuators
    ensures var started := Start(left, program);
      var q := ManageUnowned(fx.setup, started.plant, MetricsOf(started.plant.world), started.plant.world.time);
      && a in q.world.actuators
      && q.world.actuators[a] == if LetGo(fx.setup, left.plant, program, a)
                                 then fx.setup.registry.actuators[a].defaultLevel else left.plant.world.actuators[a]
  {
    var started := Start(left, program);
    ReleaseMeans(fx.setup, started.plant, MetricsOf(started.plant.world), started.plant.world.time, a);
  }

  /** What a revert does to an actuator: the outgoing fallback has the last word, unless nobody owns the
      actuator any more and the device is cool, in which case the supervisor lets go of it at once. */
  lemma RevertLeaves(fx: Fixture, d: Device, a: Actuator)
    requires fx.setup.Valid() && d.controller.Some? && a in d.plant.world.actuators
    requires d.state.Slot(d.state.lastKnownGood).artifact.Some?
    ensures var r, program := RevertLocal(fx, d), d.state.Slot(d.state.lastKnownGood).artifact.value;
      var intents := Shutdown(d.controller.value).intents;
      var vs := Verdicts(fx.setup, d.plant, intents, d.plant.world.time);
      && |vs| == |intents| && a in r.plant.world.actuators
      && r.plant.world.actuators[a] ==
           if LetGo(fx.setup, d.plant, program, a) then fx.setup.registry.actuators[a].defaultLevel
           else LastApplied(d.plant.world.actuators[a], intents, vs, a)
  {
    var intents := Shutdown(d.controller.value).intents;
    var program := d.state.Slot(d.state.lastKnownGood).artifact.value;
    var left := RunFallback(fx, d);
    TheLastWordCounts(fx.setup, d.plant, intents, d.plant.world.time, a);
    IntentsKeepEmergency(fx.setup, d.plant, intents, d.plant.world.time);
    IntentsFrame(fx.setup, d.plant, intents, d.plant.world.time);
    HandoverLeaves(fx, left.(state := Reverted(left.state)), program, a);
  }

  // ----- Leaving cooling on -----

  lemma FanOnIsGranted(setup: Setup, p: Plant, intent: Intent, time: real)
    requires WellFormed(setup.registry, setup.schema) && p.sup.state.Normal?
    requires CompilerProofs.StaticallyFine(setup, intent.spec) && intent.spec.capability in p.sup.allowed
    requires R.FanSpec(intent.spec, On)
    requires p.world.actuators[Fan] == On
          || |Entries(p.sup.log, Fan, time - setup.policy.windowSeconds)| < CeilingOf(setup, intent.spec.capability)
    ensures VerdictOn(setup, p, intent, time) == Applied
  {
    AcceptedExactlyWhen(setup, p, intent, time);
    OneIntentDoes(setup, p, intent, time);
    CompilerProofs.OnlyDynamicRejections(setup, p, intent, time);
  }

  lemma OneWord(setup: Setup, p: Plant, intents: seq<Intent>, time: real, before: Level)
    requires |intents| == 1 && R.FanSpec(intents[0].spec, On) && VerdictOn(setup, p, intents[0], time) == Applied
    ensures var vs := Verdicts(setup, p, intents, time);
      |vs| == 1 && LastApplied(before, intents, vs, Fan) == On
  {
    assert intents[1..] == [];
  }

  /** A morph that promised to leave cooling on keeps the promise on its way out: if the window has room, or
      the fan is on already, the fan-on command of its fallback is applied, and the fan is on after the
      revert unless the device is cool and what it returns to does not own the fan. */
  lemma HoldCoolingIsHeld(hash: Manifest -> Hash, m: Manifest, fx: Fixture, d: Device)
    requires fx.setup.Valid() && WellFormed(fx.setup.registry, fx.setup.schema)
    requires m.WellFormed() && Validator.Valid(m, fx.setup.registry, fx.setup.schema)
    requires m.fallback.FallbackHoldCooling?
    requires Coherent(d) && d.plant.sup.state.Normal?
    requires Compiler.Compile(hash, m, fx.setup.registry, fx.setup.schema) == Ok(d.controller.value.program)
    requires FanOn in fx.setup.registry.capabilities
    requires d.plant.world.actuators[Fan] == On
          || |Entries(d.plant.sup.log, Fan, d.plant.world.time - fx.setup.policy.windowSeconds)|
               < CeilingOf(fx.setup, FanOn)
    ensures var r, program := RevertLocal(fx, d), d.state.Slot(d.state.lastKnownGood).artifact.value;
      r.plant.world.actuators[Fan] ==
        if LetGo(fx.setup, d.plant, program, Fan) then fx.setup.registry.actuators[Fan].defaultLevel else On
  {
    HoldCoolingAsks(hash, m, fx.setup, d.controller.value);
    HeldOnTheWayOut(fx, d, Shutdown(d.controller.value).intents);
  }

  lemma HoldCoolingAsks(hash: Manifest -> Hash, m: Manifest, setup: Setup, c: Controller)
    requires WellFormed(setup.registry, setup.schema) && m.WellFormed()
    requires Validator.Valid(m, setup.registry, setup.schema) && m.fallback.FallbackHoldCooling?
    requires Compiler.Compile(hash, m, setup.registry, setup.schema) == Ok(c.program)
    ensures OneFanOn(setup, Shutdown(c).intents, c.program.CapabilitiesUsed())
  {
    FallbackKeepsItsPromise(hash, m, setup.registry, setup.schema, c.program);
    FallbackIsEmittedWhole(c);
    assert c.program.Emits(c.program.fallback[0]);
    CompilerProofs.CompiledIntentsPassStaticChecks(hash, m, setup, c.program, c.program.fallback[0]);
  }

  /** A single intent, an acceptable command to turn the fan on. */
  predicate OneFanOn(setup: Setup, intents: seq<Intent>, allowed: set<Capability>) {
    && |intents| == 1 && R.FanSpec(intents[0].spec, On) && intents[0].spec.capability == FanOn && FanOn in allowed
    && CompilerProofs.StaticallyFine(setup, intents[0].spec)
  }

  lemma HeldOnTheWayOut(fx: Fixture, d: Device, intents: seq<Intent>)
    requires fx.setup.Valid() && WellFormed(fx.setup.registry, fx.setup.schema)
    requires Coherent(d) && d.plant.sup.state.Normal? && intents == Shutdown(d.controller.value).intents
    requires OneFanOn(fx.setup, intents, d.plant.sup.allowed)
    requires d.plant.world.actuators[Fan] == On
          || |Entries(d.plant.sup.log, Fan, d.plant.world.time - fx.setup.policy.windowSeconds)|
               < CeilingOf(fx.setup, FanOn)
    ensures var r, program := RevertLocal(fx, d), d.state.Slot(d.state.lastKnownGood).artifact.value;
      r.plant.world.actuators[Fan] ==
        if LetGo(fx.setup, d.plant, program, Fan) then fx.setup.registry.actuators[Fan].defaultLevel else On
  {
    FanOnIsGranted(fx.setup, d.plant, intents[0], d.plant.world.time);
    OneWord(fx.setup, d.plant, intents, d.plant.world.time, d.plant.world.actuators[Fan]);
    RevertLeaves(fx, d, Fan);
  }

  // ----- A morph that only asks for the safe state -----

  /** One granted request anywhere in a list ends control. */
  lemma {:induction false} GrantedRequestEndsControl(setup: Setup, p: Plant, intents: seq<Intent>, time: real, k: nat)
    requires p.sup.state.Normal? && k < |intents|
    requires intents[k].spec.kind.SafetyIntent? && Authorised(setup, p.sup.allowed, intents[k].spec)
    ensures ApplyIntents(setup, p, intents, time).sup.state.SafeState?
    decreases |intents|
  {
    var next := Consider(setup, p, intents[0], time);
    OneIntentDoes(setup, p, intents[0], time);
    if next.sup.state.SafeState? {
      SafeStateRefusesAll(setup, next, intents[1..], time);
    } else if k == 0 {
      AcceptedExactlyWhen(setup, p, intents[0], time);
    } else {
      assert intents[1..][k - 1] == intents[k];
      GrantedRequestEndsControl(setup, next, intents[1..], time, k - 1);
    }
  }

  lemma {:induction false} SaidBy(intents: seq<Intent>, c: Capability) returns (k: nat)
    requires c in Said(intents)
    ensures k < |intents| && intents[k].spec.capability == c && !intents[k].spec.Commands()
  {
    if !intents[0].spec.Commands() && intents[0].spec.capability == c {
      k := 0;
    } else {
      var j := SaidBy(intents[1..], c);
      k := j + 1;
    }
  }

  lemma IdleStepAsks(hash: Manifest -> Hash, m: Manifest, setup: Setup, c: Controller, o: Observation) returns (k: nat)
    requires WellFormed(setup.registry, setup.schema) && m.WellFormed()
    requires Validator.Valid(m, setup.registry, setup.schema)
    requires Compiler.Compile(hash, m, setup.registry, setup.schema) == Ok(c.program)
    requires c.program.pattern.SafeIdlePattern?
    requires c.startedAt.Some? && o.time - c.startedAt.value < m.maximumDurationSeconds as real
    ensures Step(c, o).Stepped? && k < |Step(c, o).emission.intents|
    ensures var spec := Step(c, o).emission.intents[k].spec;
      spec.kind.SafetyIntent? && Authorised(setup, c.program.CapabilitiesUsed(), spec)
  {
    StepsReportWhatIsDue(hash, m, setup.registry, setup.schema, c, o);
    var intents := Step(c, o).emission.intents;
    assert DueReports(SafeIdlePattern, m, o.metrics)[0] == EnterSafeIdle;
    k := SaidBy(intents, EnterSafeIdle);
    CompilerProofs.StepEmits(c, o);
    CompilerProofs.CompiledIntentsPassStaticChecks(hash, m, setup, c.program, intents[k].spec);
  }

  /** A program compiled under the safe-idle pattern asks for the safe state on every step, so whatever the
      reading and whether it crashes or not, no control phase of it ends in normal state. */
  lemma IdlePhaseEndsControl(hash: Manifest -> Hash, m: Manifest, setup: Setup, rig: Rig, draw: Draw, crash: bool)
    requires setup.Valid() && WellFormed(setup.registry, setup.schema) && m.WellFormed()
    requires Validator.Valid(m, setup.registry, setup.schema)
    requires Compiler.Compile(hash, m, setup.registry, setup.schema) == Ok(rig.controller.program)
    requires rig.controller.program.pattern.SafeIdlePattern? && rig.controller.startedAt.Some?
    requires rig.plant.sup.allowed == rig.controller.program.CapabilitiesUsed()
    requires StepWorld(rig.plant.world, draw).time - rig.controller.startedAt.value < m.maximumDurationSeconds as real
    ensures LoopPhase(setup, rig, draw, crash).plant.sup.state.SafeState?
  {
    var q := PolicyPhase(setup, rig.plant, draw);
    PolicyFrame(setup, rig.plant, draw);
    ControlFrame(setup, q, rig.controller, crash);
    if q.sup.state.Normal? && !crash {
      var k := IdleStepAsks(hash, m, setup, rig.controller, Observe(q.world));
      GrantedRequestEndsControl(setup, q, Step(rig.controller, Observe(q.world)).emission.intents, q.world.time, k);
    }
  }

  /** Hence it can never be activated: as a candidate it fails on its first tick, whatever that tick brings,
      and the device is back on last-known-good. */
  lemma SafeIdleIsNeverActivated(hash: Manifest -> Hash, m: Manifest, fx: Fixture, d: Device, draw: Draw, wall: real,
                                 crash: bool)
    requires fx.setup.Valid() && WellFormed(fx.setup.registry, fx.setup.schema) && m.WellFormed()
    requires Validator.Valid(m, fx.setup.registry, fx.setup.schema)
    requires Coherent(d) && d.state.status.Probation?
    requires Compiler.Compile(hash, m, fx.setup.registry, fx.setup.schema) == Ok(d.controller.value.program)
    requires d.controller.value.program.pattern.SafeIdlePattern? && d.controller.value.startedAt.Some?
    requires StepWorld(d.plant.world, draw).time - d.controller.value.startedAt.value < m.maximumDurationSeconds as real
    ensures var t := Do(fx, d, TickHappens(draw, wall, crash)).state;
      t.status == Slots.Failed && t.candidate.None? && t.RunningSlot() == d.state.lastKnownGood
  {
    if LeaseSpent(d.state, d.plant.world.config.tickSeconds, wall) {
      SpentLeaseEndsIt(fx, d, draw, wall, crash);
    } else {
      IdlePhaseEndsControl(hash, m, fx.setup, RigOf(d), draw, crash);
      HowATickEnds(fx, d, draw, wall, crash);
    }
  }
}
