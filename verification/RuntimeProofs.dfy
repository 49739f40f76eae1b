/** Minimum hold, no-op suppression and the hysteresis meaning of a cooling program. */
module RuntimeProofs {
  import opened Names
  import opened Arithmetic
  import opened Manifests
  import opened Programs
  import opened Runtime

  // ----- Commands: what one actuator is told -----

  datatype Command = Command(tick: int, level: Option<Level>)

  predicate IsCommandOf(intent: Intent, a: Actuator) {
    intent.spec.Commands() && intent.spec.actuator.value == a
  }

  function CommandsIn(intents: seq<Intent>, a: Actuator): seq<Command> {
    if intents == [] then []
    else
      (if IsCommandOf(intents[0], a) then [Command(intents[0].tick, intents[0].spec.level)] else [])
      + CommandsIn(intents[1..], a)
  }

  lemma {:induction false} CommandsInConcat(s: seq<Intent>, t: seq<Intent>, a: Actuator)
    ensures CommandsIn(s + t, a) == CommandsIn(s, a) + CommandsIn(t, a)
  {
    if s == [] {
      assert s + t == t;
    } else {
      var head := if IsCommandOf(s[0], a) then [Command(s[0].tick, s[0].spec.level)] else [];
      assert (s + t)[1..] == s[1..] + t && (s + t)[0] == s[0];
      assert CommandsIn(s + t, a) == head + CommandsIn(s[1..] + t, a);
      CommandsInConcat(s[1..], t, a);
      assert head + (CommandsIn(s[1..], a) + CommandsIn(t, a)) == (head + CommandsIn(s[1..], a)) + CommandsIn(t, a);
    }
  }

  /** Within the lease of an initialised controller at every observation of a stream. */
  predicate WithinLease(c: Controller, stream: seq<Observation>) {
    c.startedAt.Some? && forall i :: 0 <= i < |stream| ==> !Elapsed(c, stream[i].time)
  }

  /** The controller after a stream and everything it emitted; a faulting step emits nothing. */
  function Run(c: Controller, stream: seq<Observation>): Emission
    decreases |stream|
  {
    if stream == [] then Emission(c, [])
    else
      match Step(c, stream[0])
      case Fault => Run(c, stream[1..])
      case Stepped(first) => Run(first.after, stream[1..]).Prepend(first.intents)
  }

  // ----- Hold spacing -----

  /** Compiled actuator intents always name a level. */
  predicate Levelled(specs: seq<IntentSpec>) {
    forall i :: 0 <= i < |specs| && specs[i].Commands() ==> specs[i].level.Some?
  }

  predicate LevelledProgram(p: Program) {
    forall i :: 0 <= i < |p.rules| ==> Levelled(p.rules[i].emit)
  }

  /** Each command differs in level from the one before it and comes at least `hold` ticks later;
      `previous` is the command before the first. */
  predicate Spaced(previous: Option<Command>, commands: seq<Command>, hold: int)
    decreases |commands|
  {
    commands == [] ||
    (&& (previous.Some? ==>
           commands[0].level != previous.value.level && commands[0].tick - previous.value.tick >= hold)
     && Spaced(Some(commands[0]), commands[1..], hold))
  }

  /** The same between the neighbours of a list. */
  predicate Alternating(commands: seq<Command>, hold: int) {
    forall i :: 0 < i < |commands| ==>
      commands[i].level != commands[i - 1].level && commands[i].tick - commands[i - 1].tick >= hold
  }

  function Last(previous: Option<Command>, commands: seq<Command>): Option<Command> {
    if commands == [] then previous else Some(commands[|commands| - 1])
  }

  lemma {:induction false} SpacedConcat(previous: Option<Command>, s: seq<Command>, t: seq<Command>, hold: int)
    requires Spaced(previous, s, hold) && Spaced(Last(previous, s), t, hold)
    ensures Spaced(previous, s + t, hold) && Last(previous, s + t) == Last(Last(previous, s), t)
    decreases |s|
  {
    if s == [] {
      assert s + t == t;
    } else {
      assert (s + t)[1..] == s[1..] + t;
      SpacedConcat(Some(s[0]), s[1..], t, hold);
    }
  }

  /** The last command the controller remembers giving an actuator. */
  function Memory(c: Controller, a: Actuator): Option<Command> {
    if a in c.lastTransition then Some(Command(c.lastTransition[a], Lookup(c.commanded, a))) else None
  }

  /** Between two states: what was commanded continues the remembered history, spaced. */
  predicate Continues(c: Controller, e: Emission, a: Actuator) {
    && e.after.program == c.program && e.after.startedAt == c.startedAt
    && e.after.lastTransition.Keys <= e.after.commanded.Keys
    && Spaced(Memory(c, a), CommandsIn(e.intents, a), c.program.minHoldTicks)
    && Memory(e.after, a) == Last(Memory(c, a), CommandsIn(e.intents, a))
  }

  lemma ContinuesCompose(c: Controller, first: Emission, rest: Emission, a: Actuator)
    requires Continues(c, first, a) && Continues(first.after, rest, a)
    ensures Continues(c, rest.Prepend(first.intents), a)
  {
    CommandsInConcat(first.intents, rest.intents, a);
    SpacedConcat(Memory(c, a), CommandsIn(first.intents, a), CommandsIn(rest.intents, a), c.program.minHoldTicks);
  }

  lemma MaybeEmitContinues(c: Controller, spec: IntentSpec, o: Observation, a: Actuator)
    requires c.lastTransition.Keys <= c.commanded.Keys
    requires spec.Commands() ==> spec.level.Some?
    ensures Continues(c, MaybeEmit(c, spec, o), a)
  {
    var e := MaybeEmit(c, spec, o);
    if e.intents != [] {
      var intent := e.intents[0];
      assert CommandsIn(e.intents[1..], a) == [];
      assert CommandsIn(e.intents, a)
          == if IsCommandOf(intent, a) then [Command(o.tick, spec.level)] else [];
    }
  }

  lemma {:induction false} EmitAllContinues(c: Controller, specs: seq<IntentSpec>, o: Observation, a: Actuator)
    requires c.lastTransition.Keys <= c.commanded.Keys && Levelled(specs)
    ensures Continues(c, EmitAll(c, specs, o), a)
    decreases |specs|
  {
    if specs != [] {
      var first := MaybeEmit(c, specs[0], o);
      MaybeEmitContinues(c, specs[0], o, a);
      EmitAllContinues(first.after, specs[1..], o, a);
      ContinuesCompose(c, first, EmitAll(first.after, specs[1..], o), a);
    }
  }

  lemma {:induction false} RulesContinue(c: Controller, rules: seq<Rule>, o: Observation, a: Actuator)
    requires c.lastTransition.Keys <= c.commanded.Keys
    requires forall i :: 0 <= i < |rules| ==> Levelled(rules[i].emit)
    ensures Continues(c, RunRules(c, rules, o), a)
    decreases |rules|
  {
    if rules != [] {
      if Holds(rules[0].condition, o.metrics) {
        var first := EmitAll(c, rules[0].emit, o);
        EmitAllContinues(c, rules[0].emit, o, a);
        RulesContinue(first.after, rules[1..], o, a);
        ContinuesCompose(c, first, RunRules(first.after, rules[1..], o), a);
      } else {
        RulesContinue(c, rules[1..], o, a);
      }
    }
  }

  /** A controller about to interpret its rules: only its counters have moved. */
  function Counted(c: Controller): Controller {
    c.(steps := c.steps + 1, cpuMsUsed := c.cpuMsUsed + c.program.budget.estimatedCpuMsPerStep)
  }

  lemma {:induction false} RunContinues(c: Controller, stream: seq<Observation>, a: Actuator)
    requires c.lastTransition.Keys <= c.commanded.Keys
    requires LevelledProgram(c.program) && WithinLease(c, stream)
    ensures Continues(c, Run(c, stream), a)
    decreases |stream|
  {
    if stream != [] {
      if Step(c, stream[0]).Fault? {
        RunContinues(c, stream[1..], a);
      } else {
        var first := RunRules(Counted(c), c.program.rules, stream[0]);
        RulesContinue(Counted(c), c.program.rules, stream[0], a);
        RunContinues(first.after, stream[1..], a);
        ContinuesCompose(c, first, Run(first.after, stream[1..]), a);
      }
    }
  }

  lemma {:induction false} SpacedNeighbours(previous: Option<Command>, commands: seq<Command>, hold: int)
    requires Spaced(previous, commands, hold)
    ensures Alternating(commands, hold)
    decreases |commands|
  {
    if commands != [] {
      var tail := commands[1..];
      SpacedNeighbours(Some(commands[0]), tail, hold);
      forall i | 0 < i < |commands|
        ensures commands[i].level != commands[i - 1].level && commands[i].tick - commands[i - 1].tick >= hold
      {
        if i > 1 {
          assert commands[i] == tail[i - 1] && commands[i - 1] == tail[i - 2];
        }
      }
    }
  }

  /** Within one `initialize` epoch and its lease, whatever the readings and whatever the program,
      successive commands to an actuator alternate and are at least the minimum hold apart. */
  lemma {:induction false} HoldSpacing(program: Program, time: real, actuators: map<Actuator, Level>,
                                       stream: seq<Observation>, a: Actuator)
    requires LevelledProgram(program) && WithinLease(Initialized(program, time, actuators), stream)
    ensures Alternating(CommandsIn(Run(Initialized(program, time, actuators), stream).intents, a),
                        program.minHoldTicks)
  {
    var c := Initialized(program, time, actuators);
    RunContinues(c, stream, a);
    SpacedNeighbours(None, CommandsIn(Run(c, stream).intents, a), program.minHoldTicks);
  }

  lemma {:induction false} SpacedSpan(commands: seq<Command>, hold: int)
    requires commands != [] && Alternating(commands, hold)
    ensures (|commands| - 1) * hold <= commands[|commands| - 1].tick - commands[0].tick
  {
    if |commands| > 1 {
      SpacedSpan(commands[..|commands| - 1], hold);
      assert (|commands| - 1) * hold == (|commands| - 2) * hold + hold;
    }
  }

  lemma {:induction false} CommandTicksComeFromStream(c: Controller, stream: seq<Observation>, a: Actuator, lo: int,
                                                      hi: int)
    requires WithinLease(c, stream) && forall i :: 0 <= i < |stream| ==> lo <= stream[i].tick <= hi
    ensures forall k :: 0 <= k < |Run(c, stream).intents| ==> lo <= Run(c, stream).intents[k].tick <= hi
    decreases |stream|
  {
    if stream != [] {
      match Step(c, stream[0])
      case Fault => CommandTicksComeFromStream(c, stream[1..], a, lo, hi);
      case Stepped(first) =>
        var counted := c.(steps := c.steps + 1,
                          cpuMsUsed := c.cpuMsUsed + c.program.budget.estimatedCpuMsPerStep);
        RulesStampTicks(counted, c.program.rules, stream[0]);
        CommandTicksComeFromStream(first.after, stream[1..], a, lo, hi);
    }
  }

  lemma {:induction false} SpecsStampTicks(c: Controller, specs: seq<IntentSpec>, o: Observation)
    ensures var e := EmitAll(c, specs, o);
      && e.after.startedAt == c.startedAt && e.after.program == c.program
      && forall k :: 0 <= k < |e.intents| ==> e.intents[k].tick == o.tick && e.intents[k].spec in specs
    decreases |specs|
  {
    if specs != [] {
      SpecsStampTicks(MaybeEmit(c, specs[0], o).after, specs[1..], o);
    }
  }

  lemma {:induction false} RulesStampTicks(c: Controller, rules: seq<Rule>, o: Observation)
    ensures var e := RunRules(c, rules, o);
      && e.after.startedAt == c.startedAt && e.after.program == c.program
      && forall k :: 0 <= k < |e.intents| ==>
           e.intents[k].tick == o.tick && exists r :: 0 <= r < |rules| && e.intents[k].spec in rules[r].emit
    decreases |rules|
  {
    if rules != [] {
      var tail := rules[1..];
      if !Holds(rules[0].condition, o.metrics) {
        RulesStampTicks(c, tail, o);
        var e := RunRules(c, tail, o);
        forall k | 0 <= k < |e.intents|
          ensures exists r :: 0 <= r < |rules| && e.intents[k].spec in rules[r].emit
        {
          var r :| 0 <= r < |tail| && e.intents[k].spec in tail[r].emit;
          assert e.intents[k].spec in rules[r + 1].emit;
        }
      } else {
        SpecsStampTicks(c, rules[0].emit, o);
        var first := EmitAll(c, rules[0].emit, o);
        RulesStampTicks(first.after, tail, o);
        var rest := RunRules(first.after, tail, o);
        var e := RunRules(c, rules, o);
        forall k | 0 <= k < |e.intents|
          ensures exists r :: 0 <= r < |rules| && e.intents[k].spec in rules[r].emit
        {
          if k < |first.intents| {
            assert e.intents[k].spec in rules[0].emit;
          } else {
            var r :| 0 <= r < |tail| && rest.intents[k - |first.intents|].spec in tail[r].emit;
            assert e.intents[k].spec in rules[r + 1].emit;
          }
        }
      }
    }
  }

  lemma {:induction false} CommandsKeepTicks(intents: seq<Intent>, a: Actuator, lo: int, hi: int)
    requires forall k :: 0 <= k < |intents| ==> lo <= intents[k].tick <= hi
    ensures forall k :: 0 <= k < |CommandsIn(intents, a)| ==> lo <= CommandsIn(intents, a)[k].tick <= hi
  {
    if intents != [] {
      CommandsKeepTicks(intents[1..], a, lo, hi);
    }
  }

  /** A window of `n` consecutive ticks sees at most one command plus one for every full hold. */
  lemma CommandRateIsBounded(program: Program, time: real, actuators: map<Actuator, Level>, stream: seq<Observation>,
                             a: Actuator, first: int, n: nat)
    requires LevelledProgram(program) && WithinLease(Initialized(program, time, actuators), stream)
    requires program.minHoldTicks >= 1 && n >= 1
    requires forall i :: 0 <= i < |stream| ==> first <= stream[i].tick <= first + n - 1
    ensures |CommandsIn(Run(Initialized(program, time, actuators), stream).intents, a)|
            <= 1 + (n - 1) / program.minHoldTicks
  {
    var c := Initialized(program, time, actuators);
    var commands := CommandsIn(Run(c, stream).intents, a);
    HoldSpacing(program, time, actuators, stream, a);
    if commands != [] {
      SpacedSpan(commands, program.minHoldTicks);
      CommandTicksComeFromStream(c, stream, a, first, first + n - 1);
      CommandsKeepTicks(Run(c, stream).intents, a, first, first + n - 1);
      DivideBound(|commands| - 1, program.minHoldTicks, n - 1);
    }
  }

  lemma DivideBound(k: int, d: int, m: int)
    requires d >= 1 && k * d <= m
    ensures k <= m / d
  {
    assert m < (m / d + 1) * d by {
      assert m == (m / d) * d + m % d;
    }
    Monotone(m / d + 1, k, d);
  }

  // ----- The yield step -----

  lemma {:induction false} SpecsKeepYielded(c: Controller, specs: seq<IntentSpec>, o: Observation)
    ensures EmitAll(c, specs, o).after.yielded == c.yielded
    decreases |specs|
  {
    if specs != [] {
      SpecsKeepYielded(MaybeEmit(c, specs[0], o).after, specs[1..], o);
    }
  }

  lemma {:induction false} RulesKeepYielded(c: Controller, rules: seq<Rule>, o: Observation)
    ensures RunRules(c, rules, o).after.yielded == c.yielded
    decreases |rules|
  {
    if rules != [] {
      if Holds(rules[0].condition, o.metrics) {
        SpecsKeepYielded(c, rules[0].emit, o);
        RulesKeepYielded(EmitAll(c, rules[0].emit, o).after, rules[1..], o);
      } else {
        RulesKeepYielded(c, rules[1..], o);
      }
    }
  }

  /** Within its lifetime a controller does not yield, and after a stream it takes one more step. */
  lemma {:induction false} RunOn(c: Controller, stream: seq<Observation>, o: Observation)
    requires WithinLease(c, stream) && !OverBudget(c.program)
    ensures Run(c, stream).after.program == c.program && Run(c, stream).after.startedAt == c.startedAt
    ensures Run(c, stream).after.yielded == c.yielded
    ensures Run(c, stream + [o])
         == Run(Run(c, stream).after, [o]).Prepend(Run(c, stream).intents)
    decreases |stream|
  {
    if stream == [] {
      assert stream + [o] == [o];
      var last := Run(c, [o]);
      assert [] + last.intents == last.intents;
    } else {
      var first := RunRules(Counted(c), c.program.rules, stream[0]);
      RulesStampTicks(Counted(c), c.program.rules, stream[0]);
      RulesKeepYielded(Counted(c), c.program.rules, stream[0]);
      RunOn(first.after, stream[1..], o);
      assert (stream + [o])[0] == stream[0] && (stream + [o])[1..] == stream[1..] + [o];
      var last := Run(Run(first.after, stream[1..]).after, [o]).intents;
      assert first.intents + (Run(first.after, stream[1..]).intents + last)
          == (first.intents + Run(first.after, stream[1..]).intents) + last;
    }
  }

  /** The commands of the fallback to an actuator: all of them, whatever is already commanded, stamped
      with the number of steps taken. */
  function FallbackCommands(c: Controller, a: Actuator): seq<Command> {
    CommandsIn(FallbackIntents(c.program, c.steps + 1), a)
  }

  lemma YieldStep(c: Controller, o: Observation, a: Actuator)
    requires c.startedAt.Some? && !OverBudget(c.program) && Elapsed(c, o.time) && !c.yielded
    ensures CommandsIn(Run(c, [o]).intents, a) == FallbackCommands(c, a)
  {
    var e := Step(c, o).emission;
    assert [o][1..] == [];
    assert e.intents + [] == e.intents;
  }

  lemma AlternatingAppend(s: seq<Command>, t: seq<Command>, hold: int, tick: int)
    requires Alternating(s, hold) && hold >= 1 && forall i :: 0 <= i < |t| ==> t[i].tick == tick
    ensures Alternating(s + t, hold) <==>
      || t == []
      || (|t| == 1
          && (s == [] || (t[0].level != s[|s| - 1].level && tick - s[|s| - 1].tick >= hold)))
  {
    var all := s + t;
    assert forall i :: 0 <= i < |s| ==> all[i] == s[i];
    assert forall i :: 0 <= i < |t| ==> all[|s| + i] == t[i];
    if |t| >= 2 {
      assert all[|s| + 1].tick - all[|s| + 1 - 1].tick == 0;
    } else if |t| == 1 && s != [] {
      assert all[|s|] == t[0] && all[|s| - 1] == s[|s| - 1];
    }
  }

  /** When the yield keeps the spacing that every step before it keeps, and when not. It does exactly if
      the fallback has no command for the actuator, or has one, and that is the first of the epoch or
      differs from what is commanded and comes a hold after it by the step count, because `shutdown`
      consults neither filter. */
  lemma YieldKeepsSpacingExactlyWhen(program: Program, time: real, actuators: map<Actuator, Level>,
                                     stream: seq<Observation>, o: Observation, a: Actuator)
    requires LevelledProgram(program) && WithinLease(Initialized(program, time, actuators), stream)
    requires program.minHoldTicks >= 1 && !OverBudget(program)
    requires o.time - time >= program.maximumDurationSeconds as real
    ensures var start := Initialized(program, time, actuators);
      var c := Run(start, stream).after;
      var fallback := FallbackCommands(c, a);
      (Alternating(CommandsIn(Run(start, stream + [o]).intents, a), program.minHoldTicks) <==>
        || fallback == []
        || (|fallback| == 1
            && (a !in c.lastTransition
                || (fallback[0].level != Lookup(c.commanded, a)
                    && c.steps + 1 - c.lastTransition[a] >= program.minHoldTicks))))
  {
    var start := Initialized(program, time, actuators);
    var c, before := Run(start, stream).after, CommandsIn(Run(start, stream).intents, a);
    RunContinues(start, stream, a);
    HoldSpacing(program, time, actuators, stream, a);
    RunOn(start, stream, o);
    YieldStep(c, o, a);
    CommandsInConcat(Run(start, stream).intents, Run(c, [o]).intents, a);
    FallbackStamps(c, a);
    AlternatingAppend(before, FallbackCommands(c, a), program.minHoldTicks, c.steps + 1);
  }

  lemma FallbackStamps(c: Controller, a: Actuator)
    ensures forall i :: 0 <= i < |FallbackCommands(c, a)| ==> FallbackCommands(c, a)[i].tick == c.steps + 1
  {
    CommandsKeepTicks(FallbackIntents(c.program, c.steps + 1), a, c.steps + 1, c.steps + 1);
  }

  /** A program that turns the fan on from 80 degrees and promises to leave it on. */
  function Promising(start: IntentSpec): Program {
    Program(ThermalCooling, "", "", "", "", "", "", "", 1.0, 2, 95.0, [],
            [Rule(RActivate, Some(Single(Condition(TemperatureC, GE, 80.0))), [start])], [start],
            FallbackHoldCooling, ProgramBudget(1.0, 1, 1, 0.0, 0), 5)
  }

  /** It turns the fan on at tick 1 and, yielding, once more at tick 2: the same state, within the hold. */
  lemma YieldBreaksSpacing(start: IntentSpec)
    requires FanSpec(start, On)
    ensures var c := Initialized(Promising(start), 0.0, map[Fan := Off]);
      var hot: Metrics := map[TemperatureC := 85.0];
      var stream := [Observation(1, 1.0, hot, map[Fan := Off]), Observation(2, 2.0, hot, map[Fan := On])];
      && CommandsIn(Run(c, stream).intents, Fan) == [Command(1, Some(On)), Command(2, Some(On))]
      && !Alternating(CommandsIn(Run(c, stream).intents, Fan), 5)
  {
    var c := Initialized(Promising(start), 0.0, map[Fan := Off]);
    var hot: Metrics := map[TemperatureC := 85.0];
    var first, second := Observation(1, 1.0, hot, map[Fan := Off]), Observation(2, 2.0, hot, map[Fan := On]);
    var rule := c.program.rules[0];
    FirstRule(Counted(c), c.program.rules, first);
    FanRuleEmits(Counted(c), rule, Single(Condition(TemperatureC, GE, 80.0)), On, first);
    var e := Step(c, first).emission;
    assert c.program.rules[1..] == [];
    assert e.intents == [Intent(start, 1)] + [];
    RunOn(c, [first], second);
    assert [first] + [second] == [first, second] && [first][1..] == [];
    assert Run(c, [first]).after == e.after && Run(c, [first]).intents == e.intents + [];
    YieldStep(e.after, second, Fan);
    CommandsInConcat(Run(c, [first]).intents, Run(e.after, [second]).intents, Fan);
    assert FallbackIntents(c.program, 2) == [Intent(start, 2)];
    OneIntent(Intent(start, 1), Fan);
    OneIntent(Intent(start, 2), Fan);
    assert Run(c, [first]).intents == [Intent(start, 1)];
    var commands := CommandsIn(Run(c, [first, second]).intents, Fan);
    assert commands == [Command(1, Some(On)), Command(2, Some(On))];
    assert commands[1].level == commands[1 - 1].level;
  }

  lemma OneIntent(intent: Intent, a: Actuator)
    requires IsCommandOf(intent, a)
    ensures CommandsIn([intent], a) == [Command(intent.tick, intent.spec.level)]
  {
    assert [intent][1..] == [];
  }

  // ----- The hysteresis automaton -----

  /** A two-threshold switch with a hold, read directly off a manifest's two conditions. */
  datatype Switch = Switch(position: Option<Level>, lastChange: Option<int>)

  /** The switch asked for one level: it changes if it is not there, and never sooner than `hold`
      ticks after the previous change. */
  function FlipTo(s: Switch, level: Level, hold: int, o: Observation): (Switch, Option<Level>) {
    var position := if s.position.Some? then s.position else Lookup(o.actuators, Fan);
    if Some(level) != position && (s.lastChange.None? || o.tick - s.lastChange.value >= hold)
    then (Switch(Some(level), Some(o.tick)), Some(level))
    else (s, None)
  }

  /** Ask for on while the activation condition holds, for off while the recovery condition holds. */
  function Flip(s: Switch, activation: Trigger, recovery: Trigger, hold: int, o: Observation): (Switch, Option<Level>) {
    if activation.Evaluate(o.metrics) then FlipTo(s, On, hold, o)
    else if recovery.Evaluate(o.metrics) then FlipTo(s, Off, hold, o)
    else (s, None)
  }

  /** What the switch tells the fan at each observation of a stream. */
  function SwitchTrace(s: Switch, activation: Trigger, recovery: Trigger, hold: int, stream: seq<Observation>)
    : seq<seq<Command>>
    decreases |stream|
  {
    if stream == [] then []
    else
      var (next, told) := Flip(s, activation, recovery, hold, stream[0]);
      [if told.Some? then [Command(stream[0].tick, told)] else []]
      + SwitchTrace(next, activation, recovery, hold, stream[1..])
  }

  /** What a controller tells the fan at each observation of a stream. */
  function FanTrace(c: Controller, stream: seq<Observation>): seq<seq<Command>>
    decreases |stream|
  {
    if stream == [] then []
    else
      match Step(c, stream[0])
      case Fault => [[]] + FanTrace(c, stream[1..])
      case Stepped(e) => [CommandsIn(e.intents, Fan)] + FanTrace(e.after, stream[1..])
  }

  predicate FanSpec(spec: IntentSpec, level: Level) {
    spec.kind.ActuatorIntent? && spec.actuator == Some(Fan) && spec.level == Some(level)
  }

  predicate FanRule(rule: Rule, condition: Trigger, level: Level) {
    rule.condition == Some(condition) && |rule.emit| == 1 && FanSpec(rule.emit[0], level)
  }

  predicate TelemetryRule(rule: Rule) {
    forall i :: 0 <= i < |rule.emit| ==> rule.emit[i].kind.TelemetryIntent?
  }

  /** The shape `thermal_cooling_v1` compiles to; `swapped` puts the recovery rule first. */
  predicate IsCooling(p: Program, activation: Trigger, recovery: Trigger, swapped: bool) {
    && |p.rules| >= 2
    && FanRule(p.rules[if swapped then 1 else 0], activation, On)
    && FanRule(p.rules[if swapped then 0 else 1], recovery, Off)
    && (forall i :: 2 <= i < |p.rules| ==> TelemetryRule(p.rules[i]))
    && p.minHoldTicks >= 1
    && !OverBudget(p)
  }

  function SwapRules(p: Program): Program
    requires |p.rules| >= 2
  {
    p.(rules := [p.rules[1], p.rules[0]] + p.rules[2..])
  }

  ghost predicate Disjoint(activation: Trigger, recovery: Trigger) {
    forall metrics: Metrics :: !(activation.Evaluate(metrics) && recovery.Evaluate(metrics))
  }

  /** The controller's switch position and last change, as the automaton sees them. */
  function SwitchOf(c: Controller): Switch {
    Switch(Lookup(c.commanded, Fan), Lookup(c.lastTransition, Fan))
  }

  lemma {:induction false} TelemetryRulesOnlyReport(c: Controller, rules: seq<Rule>, o: Observation)
    requires forall i :: 0 <= i < |rules| ==> TelemetryRule(rules[i])
    ensures RunRules(c, rules, o).after == c
    ensures forall k :: 0 <= k < |RunRules(c, rules, o).intents| ==>
      RunRules(c, rules, o).intents[k].spec.kind.TelemetryIntent?
    decreases |rules|
  {
    if rules != [] {
      TelemetrySpecsOnlyReport(c, rules[0].emit, o);
      TelemetryRulesOnlyReport(c, rules[1..], o);
    }
  }

  lemma {:induction false} TelemetrySpecsOnlyReport(c: Controller, specs: seq<IntentSpec>, o: Observation)
    requires forall i :: 0 <= i < |specs| ==> specs[i].kind.TelemetryIntent?
    ensures EmitAll(c, specs, o).after == c
    ensures forall k :: 0 <= k < |EmitAll(c, specs, o).intents| ==>
      EmitAll(c, specs, o).intents[k].spec.kind.TelemetryIntent?
    decreases |specs|
  {
    if specs != [] {
      TelemetrySpecsOnlyReport(c, specs[1..], o);
    }
  }

  lemma {:induction false} ReportsAreNotCommands(intents: seq<Intent>, a: Actuator)
    requires forall k :: 0 <= k < |intents| ==> intents[k].spec.kind.TelemetryIntent?
    ensures CommandsIn(intents, a) == []
  {
    if intents != [] {
      ReportsAreNotCommands(intents[1..], a);
    }
  }

  /** What a fan rule does on its own. */
  lemma FanRuleEmits(c: Controller, rule: Rule, condition: Trigger, level: Level, o: Observation)
    requires FanRule(rule, condition, level)
    ensures EmitAll(c, rule.emit, o) == MaybeEmit(c, rule.emit[0], o)
  {
    assert rule.emit[1..] == [];
    var first := MaybeEmit(c, rule.emit[0], o);
    assert EmitAll(first.after, [], o).Prepend(first.intents) == first;
  }

  function FireOne(c: Controller, rule: Rule, o: Observation): Emission {
    if Holds(rule.condition, o.metrics) then EmitAll(c, rule.emit, o) else Emission(c, [])
  }

  lemma FirstRule(c: Controller, rules: seq<Rule>, o: Observation)
    requires rules != []
    ensures var first := FireOne(c, rules[0], o);
      && RunRules(c, rules, o).after == RunRules(first.after, rules[1..], o).after
      && RunRules(c, rules, o).intents == first.intents + RunRules(first.after, rules[1..], o).intents
  {
    if !Holds(rules[0].condition, o.metrics) {
      assert [] + RunRules(c, rules[1..], o).intents == RunRules(c, rules[1..], o).intents;
    }
  }

  lemma FirstTwoRules(c: Controller, rules: seq<Rule>, o: Observation) returns (reports: seq<Intent>)
    requires |rules| >= 2 && forall i :: 2 <= i < |rules| ==> TelemetryRule(rules[i])
    ensures var first := FireOne(c, rules[0], o);
      var second := FireOne(first.after, rules[1], o);
      && RunRules(c, rules, o).after == second.after
      && RunRules(c, rules, o).intents == first.intents + (second.intents + reports)
    ensures forall k :: 0 <= k < |reports| ==> reports[k].spec.kind.TelemetryIntent?
  {
    var first := FireOne(c, rules[0], o);
    var second := FireOne(first.after, rules[1], o);
    var tail := rules[1..];
    assert tail[1..] == rules[2..] && tail[0] == rules[1];
    FirstRule(c, rules, o);
    FirstRule(first.after, tail, o);
    TelemetryRulesOnlyReport(second.after, rules[2..], o);
    reports := RunRules(second.after, rules[2..], o).intents;
  }

  /** Two fan rules whose conditions do not both hold: at most one of them fires. */
  lemma PairFires(c: Controller, rules: seq<Rule>, cond0: Trigger, level0: Level, cond1: Trigger, level1: Level,
                  o: Observation) returns (reports: seq<Intent>)
    requires |rules| >= 2 && forall i :: 2 <= i < |rules| ==> TelemetryRule(rules[i])
    requires FanRule(rules[0], cond0, level0) && FanRule(rules[1], cond1, level1)
    requires !(cond0.Evaluate(o.metrics) && cond1.Evaluate(o.metrics))
    ensures var fired :=
        if cond0.Evaluate(o.metrics) then MaybeEmit(c, rules[0].emit[0], o)
        else if cond1.Evaluate(o.metrics) then MaybeEmit(c, rules[1].emit[0], o)
        else Emission(c, []);
      && RunRules(c, rules, o).after == fired.after
      && RunRules(c, rules, o).intents == fired.intents + reports
    ensures forall k :: 0 <= k < |reports| ==> reports[k].spec.kind.TelemetryIntent?
  {
    reports := FirstTwoRules(c, rules, o);
    FanRuleEmits(c, rules[0], cond0, level0, o);
    FanRuleEmits(c, rules[1], cond1, level1, o);
    var first := FireOne(c, rules[0], o);
    if cond0.Evaluate(o.metrics) {
      assert [] + reports == reports;
    } else {
      var second := FireOne(c, rules[1], o);
      assert first == Emission(c, []);
      assert [] + (second.intents + reports) == second.intents + reports;
    }
  }

  predicate Paired(p: Program) { |p.rules| >= 2 && |p.rules[0].emit| == 1 && |p.rules[1].emit| == 1 }

  /** The specification a cooling program uses to drive the fan to a level. */
  function FanSpecOf(p: Program, level: Level, swapped: bool): IntentSpec
    requires Paired(p)
  {
    p.rules[if (level == On) != swapped then 0 else 1].emit[0]
  }

  /** Driving the fan: suppressed when already there or held, otherwise remembered. */
  lemma FanEmission(c: Controller, spec: IntentSpec, level: Level, o: Observation)
    requires FanSpec(spec, level)
    ensures var e := MaybeEmit(Counted(c), spec, o);
      var s := SwitchOf(c);
      var moves := Believed(c, Fan, o) != Some(level)
        && (s.lastChange.None? || o.tick - s.lastChange.value >= c.program.minHoldTicks);
      && e.after.program == c.program && e.after.startedAt == c.startedAt && e.after.yielded == c.yielded
      && (moves ==> e.intents == [Intent(spec, o.tick)] && SwitchOf(e.after) == Switch(Some(level), Some(o.tick)))
      && (!moves ==> e.intents == [] && SwitchOf(e.after) == s)
  {
  }

  /** What a cooling program fires on a step, in either rule order. */
  function Fired(c: Controller, activation: Trigger, recovery: Trigger, swapped: bool, o: Observation): Emission
    requires Paired(c.program)
  {
    if activation.Evaluate(o.metrics) then MaybeEmit(Counted(c), FanSpecOf(c.program, On, swapped), o)
    else if recovery.Evaluate(o.metrics) then MaybeEmit(Counted(c), FanSpecOf(c.program, Off, swapped), o)
    else Emission(Counted(c), [])
  }

  lemma CoolingFires(c: Controller, activation: Trigger, recovery: Trigger, swapped: bool, o: Observation)
    returns (reports: seq<Intent>)
    requires IsCooling(c.program, activation, recovery, swapped)
    requires !(activation.Evaluate(o.metrics) && recovery.Evaluate(o.metrics))
    requires c.startedAt.Some? && !Elapsed(c, o.time)
    ensures Step(c, o).Stepped?
    ensures var e, fired := Step(c, o).emission, Fired(c, activation, recovery, swapped, o);
      e.after == fired.after && e.intents == fired.intents + reports
    ensures forall k :: 0 <= k < |reports| ==> reports[k].spec.kind.TelemetryIntent?
  {
    if swapped {
      reports := PairFires(Counted(c), c.program.rules, recovery, Off, activation, On, o);
    } else {
      reports := PairFires(Counted(c), c.program.rules, activation, On, recovery, Off, o);
    }
  }

  /** One step of a cooling program, in either rule order: at most one fan command, followed by
      reports, and exactly the command the switch gives. */
  lemma CoolingStep(c: Controller, activation: Trigger, recovery: Trigger, swapped: bool, o: Observation)
    requires IsCooling(c.program, activation, recovery, swapped)
    requires !(activation.Evaluate(o.metrics) && recovery.Evaluate(o.metrics))
    requires c.startedAt.Some? && !Elapsed(c, o.time)
    ensures Step(c, o).Stepped?
    ensures var e := Step(c, o).emission;
      var (next, told) := Flip(SwitchOf(c), activation, recovery, c.program.minHoldTicks, o);
      && e.after.program == c.program && e.after.startedAt == c.startedAt && e.after.yielded == c.yielded
      && SwitchOf(e.after) == next
      && OneCommandThenReports(e.intents, told, c.program, swapped, o.tick)
  {
    var reports := CoolingFires(c, activation, recovery, swapped, o);
    FiredIsTold(c, activation, recovery, swapped, o, reports);
  }

  lemma FiredIsTold(c: Controller, activation: Trigger, recovery: Trigger, swapped: bool, o: Observation,
                    reports: seq<Intent>)
    requires IsCooling(c.program, activation, recovery, swapped)
    requires forall k :: 0 <= k < |reports| ==> reports[k].spec.kind.TelemetryIntent?
    ensures var fired := Fired(c, activation, recovery, swapped, o);
      var (next, told) := Flip(SwitchOf(c), activation, recovery, c.program.minHoldTicks, o);
      && fired.after.program == c.program && fired.after.startedAt == c.startedAt
      && fired.after.yielded == c.yielded && SwitchOf(fired.after) == next
      && OneCommandThenReports(fired.intents + reports, told, c.program, swapped, o.tick)
  {
    if activation.Evaluate(o.metrics) {
      DrivenIsTold(c, On, swapped, o, reports);
    } else if recovery.Evaluate(o.metrics) {
      DrivenIsTold(c, Off, swapped, o, reports);
    } else {
      assert [] + reports == reports;
    }
  }

  lemma DrivenIsTold(c: Controller, level: Level, swapped: bool, o: Observation, reports: seq<Intent>)
    requires Paired(c.program) && FanSpec(FanSpecOf(c.program, level, swapped), level)
    requires forall k :: 0 <= k < |reports| ==> reports[k].spec.kind.TelemetryIntent?
    ensures var fired := MaybeEmit(Counted(c), FanSpecOf(c.program, level, swapped), o);
      var (next, told) := FlipTo(SwitchOf(c), level, c.program.minHoldTicks, o);
      && fired.after.program == c.program && fired.after.startedAt == c.startedAt
      && fired.after.yielded == c.yielded && SwitchOf(fired.after) == next
      && OneCommandThenReports(fired.intents + reports, told, c.program, swapped, o.tick)
  {
    FanEmission(c, FanSpecOf(c.program, level, swapped), level, o);
    var fired := MaybeEmit(Counted(c), FanSpecOf(c.program, level, swapped), o);
    if fired.intents == [] {
      assert fired.intents + reports == reports;
    } else {
      assert fired.intents + reports == [Intent(FanSpecOf(c.program, level, swapped), o.tick)] + reports;
    }
  }

  /** At most one intent for the fan, first, taken from the rule that drives it to that level. */
  predicate OneCommandThenReports(intents: seq<Intent>, told: Option<Level>, p: Program, swapped: bool, tick: int)
    requires Paired(p)
  {
    && (told.None? ==> forall k :: 0 <= k < |intents| ==> intents[k].spec.kind.TelemetryIntent?)
    && (told.Some? ==>
          && |intents| >= 1 && FanSpec(intents[0].spec, told.value) && intents[0].tick == tick
          && intents[0].spec == FanSpecOf(p, told.value, swapped)
          && forall k :: 1 <= k < |intents| ==> intents[k].spec.kind.TelemetryIntent?)
  }

  lemma FanCommandsOfStep(intents: seq<Intent>, told: Option<Level>, p: Program, swapped: bool, tick: int)
    requires Paired(p) && OneCommandThenReports(intents, told, p, swapped, tick)
    ensures CommandsIn(intents, Fan) == if told.Some? then [Command(tick, told)] else []
  {
    if told.None? {
      ReportsAreNotCommands(intents, Fan);
    } else {
      ReportsAreNotCommands(intents[1..], Fan);
    }
  }

  /** Compilation preserves meaning: on any observation stream within the lease, a cooling program
      tells the fan exactly what the hysteresis switch tells it, tick for tick. */
  lemma {:induction false} CoolingMeansHysteresis(
    c: Controller, activation: Trigger, recovery: Trigger, swapped: bool, stream: seq<Observation>)
    requires IsCooling(c.program, activation, recovery, swapped)
    requires Disjoint(activation, recovery) && WithinLease(c, stream)
    ensures FanTrace(c, stream)
         == SwitchTrace(SwitchOf(c), activation, recovery, c.program.minHoldTicks, stream)
    decreases |stream|
  {
    if stream != [] {
      var o := stream[0];
      CoolingStep(c, activation, recovery, swapped, o);
      var e := Step(c, o).emission;
      var (next, told) := Flip(SwitchOf(c), activation, recovery, c.program.minHoldTicks, o);
      FanCommandsOfStep(e.intents, told, c.program, swapped, o.tick);
      CoolingMeansHysteresis(e.after, activation, recovery, swapped, stream[1..]);
    }
  }

  /** The order of the two fan rules is a presentation detail: swapping them changes no command. */
  lemma {:induction false} RuleOrderIsPresentation(program: Program, activation: Trigger, recovery: Trigger,
                                                   time: real, actuators: map<Actuator, Level>,
                                                   stream: seq<Observation>)
    requires IsCooling(program, activation, recovery, false) && Disjoint(activation, recovery)
    requires WithinLease(Initialized(program, time, actuators), stream)
    ensures FanTrace(Initialized(SwapRules(program), time, actuators), stream)
         == FanTrace(Initialized(program, time, actuators), stream)
  {
    CoolingMeansHysteresis(Initialized(program, time, actuators), activation, recovery, false, stream);
    CoolingMeansHysteresis(Initialized(SwapRules(program), time, actuators), activation, recovery, true, stream);
  }

  /** Disjointness is exactly what meaning rests on: where both conditions hold at once, a running
      fan is switched off although the activation condition still holds. */
  lemma {:induction false} OverlapBreaksMeaning(program: Program, activation: Trigger, recovery: Trigger,
                                                metrics: Metrics, time: real)
    requires IsCooling(program, activation, recovery, false)
    requires activation.Evaluate(metrics) && recovery.Evaluate(metrics)
    requires program.maximumDurationSeconds > 0
    ensures var c := Initialized(program, time, map[Fan := On]);
      var stream := [Observation(0, time, metrics, map[Fan := On])];
      && WithinLease(c, stream)
      && FanTrace(c, stream) != SwitchTrace(SwitchOf(c), activation, recovery, program.minHoldTicks, stream)
  {
    var c := Initialized(program, time, map[Fan := On]);
    var o := Observation(0, time, metrics, map[Fan := On]);
    var reports := FirstTwoRules(Counted(c), program.rules, o);
    FanRuleEmits(Counted(c), program.rules[0], activation, On, o);
    FanRuleEmits(Counted(c), program.rules[1], recovery, Off, o);
    var intents := Step(c, o).emission.intents;
    assert FanSpec(intents[0].spec, Off) && intents[0] == Intent(program.rules[1].emit[0], 0);
    assert FanTrace(c, [o])[0] == CommandsIn(intents, Fan);
    assert CommandsIn(intents, Fan)[0] == Command(0, Some(Off));
    assert SwitchTrace(SwitchOf(c), activation, recovery, program.minHoldTicks, [o])[0] == [];
  }

  // ----- Bounded response -----

  /** Activation holding, and recovery not, on every observation of a stretch of consecutive ticks. */
  predicate Demands(activation: Trigger, recovery: Trigger, stream: seq<Observation>, first: int) {
    forall i :: 0 <= i < |stream| ==>
      stream[i].tick == first + i && activation.Evaluate(stream[i].metrics)
      && !recovery.Evaluate(stream[i].metrics)
  }

  function SwitchAfter(s: Switch, activation: Trigger, recovery: Trigger, hold: int, stream: seq<Observation>): Switch
    decreases |stream|
  {
    if stream == [] then s
    else SwitchAfter(Flip(s, activation, recovery, hold, stream[0]).0, activation, recovery, hold, stream[1..])
  }

  lemma {:induction false} DemandTurnsOn(s: Switch, activation: Trigger, recovery: Trigger, hold: int,
                                         stream: seq<Observation>, first: int)
    requires Demands(activation, recovery, stream, first) && stream != []
    requires s.position.Some?
    requires s.position == Some(On) || s.lastChange.None? || first + |stream| - 1 - s.lastChange.value >= hold
    ensures SwitchAfter(s, activation, recovery, hold, stream).position == Some(On)
    decreases |stream|
  {
    var next := Flip(s, activation, recovery, hold, stream[0]).0;
    assert stream[0].tick == first + 0;
    if |stream| > 1 {
      forall i | 0 <= i < |stream[1..]|
        ensures stream[1..][i].tick == first + 1 + i && activation.Evaluate(stream[1..][i].metrics)
             && !recovery.Evaluate(stream[1..][i].metrics)
      {
        assert stream[1..][i] == stream[i + 1];
      }
      DemandTurnsOn(next, activation, recovery, hold, stream[1..], first + 1);
    } else {
      assert stream[1..] == [];
    }
  }

  lemma {:induction false} RunFollowsSwitch(
    c: Controller, activation: Trigger, recovery: Trigger, swapped: bool, stream: seq<Observation>)
    requires IsCooling(c.program, activation, recovery, swapped)
    requires Disjoint(activation, recovery) && WithinLease(c, stream)
    ensures SwitchOf(Run(c, stream).after)
         == SwitchAfter(SwitchOf(c), activation, recovery, c.program.minHoldTicks, stream)
    decreases |stream|
  {
    if stream != [] {
      CoolingStep(c, activation, recovery, swapped, stream[0]);
      RunFollowsSwitch(Step(c, stream[0]).emission.after, activation, recovery, swapped, stream[1..]);
    }
  }

  /** Bounded response: once the activation condition has held for `minHoldTicks` consecutive ticks,
      the controller has the fan on, however recently it had switched it off. */
  lemma {:induction false} BoundedResponse(c: Controller, activation: Trigger, recovery: Trigger,
                                           stream: seq<Observation>, first: int)
    requires IsCooling(c.program, activation, recovery, false) && Disjoint(activation, recovery)
    requires WithinLease(c, stream) && |stream| == c.program.minHoldTicks
    requires Demands(activation, recovery, stream, first)
    requires Fan in c.commanded
    requires Fan in c.lastTransition ==> c.lastTransition[Fan] < first
    ensures Fan in Run(c, stream).after.commanded && Run(c, stream).after.commanded[Fan] == On
  {
    RunFollowsSwitch(c, activation, recovery, false, stream);
    DemandTurnsOn(SwitchOf(c), activation, recovery, c.program.minHoldTicks, stream, first);
  }
}
