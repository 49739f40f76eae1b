/** The controller runtime: an interpreter of compiled programs. The functions say what one step
    does to a controller's state; the class carries the state and is proved to do exactly that. */
module Runtime {
  import opened Names
  import opened Programs

  datatype Observation = Observation(tick: int, time: real, metrics: Metrics, actuators: map<Actuator, Level>)

  /** The state of one controller. `startedAt` is absent until `initialize`. */
  datatype Controller = Controller(
    program: Program,
    startedAt: Option<real>,
    steps: nat,
    cpuMsUsed: real,
    transitions: nat,
    yielded: bool,
    commanded: map<Actuator, Level>,
    lastTransition: map<Actuator, int>)

  /** A state together with the intents emitted on the way to it. */
  datatype Emission = Emission(after: Controller, intents: seq<Intent>) {
    function Prepend(earlier: seq<Intent>): Emission { Emission(after, earlier + intents) }
  }

  datatype StepResult = Fault | Stepped(emission: Emission)

  function Created(program: Program): Controller {
    Controller(program, None, 0, 0.0, 0, false, map[], map[])
  }

  /** `initialize` seeds the commanded states from the real ones and forgets every hold. */
  function Initialized(program: Program, time: real, actuators: map<Actuator, Level>): Controller {
    Controller(program, Some(time), 0, 0.0, 0, false, actuators, map[])
  }

  function FallbackIntents(program: Program, tick: int): seq<Intent> {
    seq(|program.fallback|, i requires 0 <= i < |program.fallback| => Intent(program.fallback[i], tick))
  }

  function Shutdown(c: Controller): Emission {
    Emission(c.(yielded := true), FallbackIntents(c.program, c.steps))
  }

  /** The state the controller believes an actuator is in. */
  function Believed(c: Controller, actuator: Actuator, observation: Observation): Option<Level> {
    if actuator in c.commanded then Some(c.commanded[actuator]) else Lookup(observation.actuators, actuator)
  }

  function MaybeEmit(c: Controller, spec: IntentSpec, observation: Observation): Emission {
    if !spec.Commands() then Emission(c, [Intent(spec, observation.tick)])
    else
      var a := spec.actuator.value;
      if Believed(c, a, observation) == spec.level then Emission(c, [])
      else if a in c.lastTransition && observation.tick - c.lastTransition[a] < c.program.minHoldTicks then
        Emission(c, [])
      else
        Emission(
          c.(commanded := c.commanded[a := if spec.level.Some? then spec.level.value else OtherLevel("")],
             lastTransition := c.lastTransition[a := observation.tick],
             transitions := c.transitions + 1),
          [Intent(spec, observation.tick)])
  }

  function EmitAll(c: Controller, specs: seq<IntentSpec>, observation: Observation): Emission
    decreases |specs|
  {
    if specs == [] then Emission(c, [])
    else
      var first := MaybeEmit(c, specs[0], observation);
      EmitAll(first.after, specs[1..], observation).Prepend(first.intents)
  }

  function RunRules(c: Controller, rules: seq<Rule>, observation: Observation): Emission
    decreases |rules|
  {
    if rules == [] then Emission(c, [])
    else if !Holds(rules[0].condition, observation.metrics) then RunRules(c, rules[1..], observation)
    else
      var first := EmitAll(c, rules[0].emit, observation);
      RunRules(first.after, rules[1..], observation).Prepend(first.intents)
  }

  predicate OverBudget(program: Program) {
    program.budget.estimatedCpuMsPerStep > program.budget.maxCpuMsPerStep
  }

  /** Whether the contract of an initialised controller is over at a given time. */
  predicate Elapsed(c: Controller, time: real)
    requires c.startedAt.Some?
  {
    time - c.startedAt.value >= c.program.maximumDurationSeconds as real
  }

  function Step(c: Controller, observation: Observation): StepResult {
    if c.startedAt.None? || OverBudget(c.program) then Fault
    else
      var counted := c.(steps := c.steps + 1,
                        cpuMsUsed := c.cpuMsUsed + c.program.budget.estimatedCpuMsPerStep);
      if Elapsed(c, observation.time) then
        Stepped(if c.yielded then Emission(counted, []) else Shutdown(counted))
      else Stepped(RunRules(counted, c.program.rules, observation))
  }

  class CompiledController {
    const program: Program
    var startedAt: Option<real>
    var steps: nat
    var cpuMsUsed: real
    var transitions: nat
    var yielded: bool
    var commanded: map<Actuator, Level>
    var lastTransition: map<Actuator, int>

    function View(): Controller
      reads this
    {
      Controller(program, startedAt, steps, cpuMsUsed, transitions, yielded, commanded, lastTransition)
    }

    constructor (program: Program)
      ensures View() == Created(program) && this.program == program
    {
      this.program := program;
      startedAt, steps, cpuMsUsed, transitions, yielded := None, 0, 0.0, 0, false;
      commanded, lastTransition := map[], map[];
    }

    method Initialize(time: real, actuators: map<Actuator, Level>)
      modifies this
      ensures View() == Initialized(program, time, actuators)
    {
      startedAt := Some(time);
      steps, cpuMsUsed, transitions, yielded := 0, 0.0, 0, false;
      commanded, lastTransition := actuators, map[];
    }

    method ShutDown() returns (intents: seq<Intent>)
      modifies this
      ensures Emission(View(), intents) == Shutdown(old(View()))
    {
      yielded := true;
      intents := [];
      for i := 0 to |program.fallback|
        invariant intents == FallbackIntents(program, steps)[..i]
        invariant View() == old(View()).(yielded := true)
      {
        intents := intents + [Intent(program.fallback[i], steps)];
      }
    }

    method MaybeEmitOne(spec: IntentSpec, observation: Observation) returns (intents: seq<Intent>)
      modifies this`commanded, this`lastTransition, this`transitions
      ensures Emission(View(), intents) == MaybeEmit(old(View()), spec, observation)
    {
      if spec.kind != ActuatorIntent || spec.actuator.None? {
        return [Intent(spec, observation.tick)];
      }
      var a := spec.actuator.value;
      var current := if a in commanded then Some(commanded[a]) else Lookup(observation.actuators, a);
      if current == spec.level {
        return [];
      }
      var last := Lookup(lastTransition, a);
      if last.Some? && observation.tick - last.value < program.minHoldTicks {
        return [];
      }
      commanded := commanded[a := if spec.level.Some? then spec.level.value else OtherLevel("")];
      lastTransition := lastTransition[a := observation.tick];
      transitions := transitions + 1;
      intents := [Intent(spec, observation.tick)];
    }

    method EmitRule(rule: Rule, observation: Observation) returns (intents: seq<Intent>)
      modifies this`commanded, this`lastTransition, this`transitions
      ensures Emission(View(), intents) == EmitAll(old(View()), rule.emit, observation)
    {
      intents := [];
      for i := 0 to |rule.emit|
        invariant EmitAll(old(View()), rule.emit, observation)
               == EmitAll(View(), rule.emit[i..], observation).Prepend(intents)
      {
        ghost var rest := rule.emit[i..];
        assert rest[1..] == rule.emit[i + 1..];
        var emitted := MaybeEmitOne(rule.emit[i], observation);
        assert forall more: seq<Intent> :: intents + (emitted + more) == (intents + emitted) + more;
        intents := intents + emitted;
      }
    }

    /** One control step; `fault` stands for the raised controller fault. */
    method TakeStep(observation: Observation) returns (fault: bool, intents: seq<Intent>)
      modifies this
      ensures fault ==> Step(old(View()), observation) == Fault && View() == old(View()) && intents == []
      ensures !fault ==> Step(old(View()), observation) == Stepped(Emission(View(), intents))
    {
      if startedAt.None? || program.budget.estimatedCpuMsPerStep > program.budget.maxCpuMsPerStep {
        return true, [];
      }
      fault := false;
      steps := steps + 1;
      cpuMsUsed := cpuMsUsed + program.budget.estimatedCpuMsPerStep;
      if observation.time - startedAt.value >= program.maximumDurationSeconds as real {
        if yielded {
          return false, [];
        }
        intents := ShutDown();
        return;
      }
      intents := [];
      ghost var counted := View();
      for i := 0 to |program.rules|
        invariant RunRules(counted, program.rules, observation)
               == RunRules(View(), program.rules[i..], observation).Prepend(intents)
      {
        ghost var rest := program.rules[i..];
        assert rest[1..] == program.rules[i + 1..];
        if Holds(program.rules[i].condition, observation.metrics) {
          var emitted := EmitRule(program.rules[i], observation);
          assert forall more: seq<Intent> :: intents + (emitted + more) == (intents + emitted) + more;
          intents := intents + emitted;
        }
      }
    }
  }
}
