/** Minimum hold against transition budget: exactly when a compiled program never runs into the
    supervisor's sliding window, and so never believes something false of its fan. */
module BudgetProofs {
  import opened Names
  import opened Arithmetic
  import opened Manifests
  import opened Programs
  import opened Worlds
  import opened Supervisors
  import opened Runtime
  import opened RuntimeProofs
  import opened Harness
  import opened Runs
  import opened Adaptation

  // ----- Counting -----

  /** Going backwards through the log, the fan's entries since `cutoff` lie apart by at least `gap` and
      `other` in turn, and the newest is not after `until`. */
  predicate Paced(log: seq<Entry>, gap: real, other: real, until: real, cutoff: real)
    decreases |log|
  {
    log == [] ||
    var last := log[|log| - 1];
    if last.actuator == Fan && last.time >= cutoff
    then last.time <= until && Paced(log[..|log| - 1], other, gap, last.time - gap, cutoff)
    else Paced(log[..|log| - 1], gap, other, until, cutoff)
  }

  lemma {:induction false} PacedLater(log: seq<Entry>, gap: real, other: real, until: real, later: real, cutoff: real)
    requires Paced(log, gap, other, until, cutoff) && until <= later
    ensures Paced(log, gap, other, later, cutoff)
    decreases |log|
  {
    if log != [] && !(log[|log| - 1].actuator == Fan && log[|log| - 1].time >= cutoff) {
      PacedLater(log[..|log| - 1], gap, other, until, later, cutoff);
    }
  }

  lemma {:induction false} NothingRecentIsPaced(log: seq<Entry>, gap: real, other: real, until: real, cutoff: real)
    requires RecentTransitions(log, Fan, cutoff) == 0
    ensures Paced(log, gap, other, until, cutoff)
    decreases |log|
  {
    if log != [] {
      NothingRecentIsPaced(log[..|log| - 1], gap, other, until, cutoff);
    }
  }

  lemma PacedAppend(log: seq<Entry>, time: real, gap: real, other: real, until: real, cutoff: real)
    requires Paced(log, other, gap, time - gap, cutoff) && time >= cutoff && time <= until
    ensures Paced(log + [Entry(time, Fan, true)], gap, other, until, cutoff)
  {
    assert (log + [Entry(time, Fan, true)])[..|log|] == log;
  }

  /** The time that `k` gaps in a row take, of two lengths in turn. */
  function Span(k: nat, gap: real, other: real): real {
    if k == 0 then 0.0 else gap + Span(k - 1, other, gap)
  }

  /** Entries that far apart cannot crowd a window: `k` of them span `k - 1` gaps. */
  lemma {:induction false} PacedCount(log: seq<Entry>, gap: real, other: real, until: real, cutoff: real, since: real)
    requires Paced(log, gap, other, until, cutoff) && gap > 0.0 && other > 0.0 && cutoff <= since
    ensures var k := RecentTransitions(log, Fan, since);
      k >= 1 ==> Span(k - 1, gap, other) <= until - since
    decreases |log|
  {
    if log != [] {
      var last := log[|log| - 1];
      if last.actuator == Fan && last.time >= cutoff {
        var before := RecentTransitions(log[..|log| - 1], Fan, since);
        PacedCount(log[..|log| - 1], other, gap, last.time - gap, cutoff, since);
        if before >= 1 {
          SpanGrows(0, before - 1, other, gap);
          assert Span(before, gap, other) == gap + Span(before - 1, other, gap);
        }
      } else {
        PacedCount(log[..|log| - 1], gap, other, until, cutoff, since);
      }
    }
  }

  lemma {:induction false} SpanGrows(j: nat, k: nat, gap: real, other: real)
    requires j <= k && gap >= 0.0 && other >= 0.0
    ensures 0.0 <= Span(j, gap, other) <= Span(k, gap, other)
    decreases k
  {
    if j > 0 {
      SpanGrows(j - 1, k - 1, other, gap);
    } else if k > 0 {
      SpanGrows(0, k - 1, other, gap);
    }
  }

  /** Starting with the longer gap takes no less time. */
  lemma {:induction false} SpanFromLonger(k: nat, gap: real, other: real)
    requires gap <= other
    ensures Span(k, gap, other) <= Span(k, other, gap)
    decreases k
  {
    if k >= 2 {
      SpanFromLonger(k - 2, gap, other);
      assert Span(k, gap, other) == gap + (other + Span(k - 2, gap, other));
      assert Span(k, other, gap) == other + (gap + Span(k - 2, other, gap));
    } else if k == 1 {
      assert Span(1, gap, other) == gap + Span(0, other, gap);
      assert Span(1, other, gap) == other + Span(0, gap, other);
    }
  }

  /** In pairs, with a single gap left over. */
  lemma {:induction false} SpanInPairs(k: nat, gap: real, other: real)
    ensures Span(k, gap, other) == (k / 2) as real * (gap + other) + (k % 2) as real * gap
    decreases k
  {
    if k >= 2 {
      SpanInPairs(k - 2, gap, other);
      assert Span(k, gap, other) == gap + (other + Span(k - 2, gap, other));
      assert k / 2 == (k - 2) / 2 + 1 && k % 2 == (k - 2) % 2;
      OneMore((k - 2) / 2, gap + other);
    } else if k == 1 {
      assert Span(1, gap, other) == gap + Span(0, other, gap) == gap;
      assert k / 2 == 0 && k % 2 == 1;
      assert 0 as real * (gap + other) == 0.0 && 1 as real * gap == gap;
    }
  }

  lemma {:induction false} SpanOfEqual(k: nat, gap: real)
    ensures Span(k, gap, gap) == k as real * gap
  {
    if k > 0 {
      SpanOfEqual(k - 1, gap);
      OneMore(k - 1, gap);
    }
  }

  // ----- The hold keeps the budget -----

  function Gap(rig: Rig): real {
    rig.controller.program.minHoldTicks as real * rig.plant.world.config.tickSeconds
  }

  /** How long after the previous command one to turn the fan on, or off, can come: a hold, and `rest`
      ticks at least before it is turned on again. */
  function GapTo(on: bool, hold: int, rest: nat, dt: real): real {
    (if on && rest > hold then rest else hold) as real * dt
  }

  function GapBefore(rig: Rig, on: bool, rest: nat): real {
    GapTo(on, rig.controller.program.minHoldTicks, rest, rig.plant.world.config.tickSeconds)
  }

  /** As many commands as the ceiling allows, those gaps apart in turn and the shorter first, take
      longer than the window. */
  predicate Roomy(window: real, ceiling: int, hold: int, rest: nat, dt: real) {
    ceiling >= 1 && 0.0 <= window < Span(ceiling, GapTo(false, hold, rest, dt), GapTo(true, hold, rest, dt))
  }

  predicate RoomyFor(setup: Setup, rig: Rig, ceiling: int, rest: nat) {
    Roomy(setup.policy.windowSeconds, ceiling, rig.controller.program.minHoldTicks, rest,
          rig.plant.world.config.tickSeconds)
  }

  predicate IsOn(rig: Rig) { SwitchOf(rig.controller).position == Some(On) }

  /** The fan's entries since `cutoff` are the controller's commands: none before its first, and then
      that far apart, on and off in turn. */
  ghost predicate LogFollowsHold(rig: Rig, cutoff: real, rest: nat) {
    var s := SwitchOf(rig.controller);
    if s.lastChange.None? then RecentTransitions(rig.plant.sup.log, Fan, cutoff) == 0
    else
      var last := s.lastChange.value as real * rig.plant.world.config.tickSeconds;
      && (s.position == Some(On) || s.position == Some(Off))
      && (s.position == Some(On) ==>
            EverPaced(rig.plant.sup.log, GapBefore(rig, true, rest), GapBefore(rig, false, rest), last, cutoff))
      && (s.position == Some(Off) ==>
            EverPaced(rig.plant.sup.log, GapBefore(rig, false, rest), GapBefore(rig, true, rest), last, cutoff))
  }

  ghost predicate EverPaced(log: seq<Entry>, gap: real, other: real, from: real, cutoff: real) {
    forall until: real :: from <= until ==> Paced(log, gap, other, until, cutoff)
  }

  lemma Scaled(n: int, l: int, ticks: int, dt: real)
    requires n - l >= ticks && dt > 0.0
    ensures l as real * dt <= n as real * dt - ticks as real * dt
  {
    assert ((n - l - ticks) as real) * dt >= 0.0;
  }

  /** Enough time has passed for a command to turn the fan on, or off. */
  predicate Due(rig: Rig, tick: int, on: bool, rest: nat) {
    var last := SwitchOf(rig.controller).lastChange;
    last.Some? ==>
      && tick - last.value >= rig.controller.program.minHoldTicks
      && on == !IsOn(rig)
      && (on ==> tick - last.value >= rest)
  }

  lemma GapsArePositive(rig: Rig, rest: nat)
    requires rig.plant.world.config.tickSeconds > 0.0 && rig.controller.program.minHoldTicks >= 1
    ensures 0.0 < GapBefore(rig, false, rest) <= GapBefore(rig, true, rest)
    ensures GapBefore(rig, false, rest) == Gap(rig)
    ensures rest <= rig.controller.program.minHoldTicks ==> GapBefore(rig, true, rest) == Gap(rig)
  {
    Times(rig.controller.program.minHoldTicks, rest, rig.plant.world.config.tickSeconds);
  }

  /** The counting argument on values: `k` entries and one more command behind them take `k` gaps. */
  lemma CountFits(log: seq<Entry>, ahead: real, behind: real, time: real, cutoff: real, window: real, ceiling: int)
    requires Paced(log, behind, ahead, time - ahead, cutoff)
    requires ahead > 0.0 && behind > 0.0 && cutoff <= time - window
    requires ceiling >= 1 && window < Span(ceiling, ahead, behind)
    ensures RecentTransitions(log, Fan, time - window) < ceiling
  {
    var k := RecentTransitions(log, Fan, time - window);
    PacedCount(log, behind, ahead, time - ahead, cutoff, time - window);
    if k >= 1 {
      assert Span(k, ahead, behind) == ahead + Span(k - 1, behind, ahead);
      if ceiling <= k {
        SpanGrows(ceiling, k, ahead, behind);
      }
    }
  }

  lemma EitherOrder(window: real, ceiling: int, hold: real, rest: real)
    requires ceiling >= 1 && window < Span(ceiling, hold, rest) && hold <= rest
    ensures window < Span(ceiling, hold, rest) && window < Span(ceiling, rest, hold)
  {
    SpanFromLonger(ceiling, hold, rest);
  }

  lemma {:induction false} MoreSinceEarlier(log: seq<Entry>, a: Actuator, since: real, earlier: real)
    requires earlier <= since
    ensures RecentTransitions(log, a, since) <= RecentTransitions(log, a, earlier)
  {
    if log != [] {
      MoreSinceEarlier(log[..|log| - 1], a, since, earlier);
    }
  }

  /** The log is paced up to a command that is due. */
  lemma PacedUpTo(rig: Rig, time: real, tick: int, cutoff: real, rest: nat, on: bool)
    requires LogFollowsHold(rig, cutoff, rest) && Due(rig, tick, on, rest)
    requires rig.plant.world.config.tickSeconds > 0.0
    requires time == tick as real * rig.plant.world.config.tickSeconds
    ensures Paced(rig.plant.sup.log, GapBefore(rig, !on, rest), GapBefore(rig, on, rest),
                  time - GapBefore(rig, on, rest), cutoff)
  {
    var s, dt, hold := SwitchOf(rig.controller), rig.plant.world.config.tickSeconds, rig.controller.program.minHoldTicks;
    if s.lastChange.Some? {
      Scaled(tick, s.lastChange.value, if on && rest > hold then rest else hold, dt);
      var until := time - GapBefore(rig, on, rest);
      assert s.lastChange.value as real * dt <= until;
      if on {
        assert Paced(rig.plant.sup.log, GapBefore(rig, false, rest), GapBefore(rig, true, rest), until, cutoff);
      } else {
        assert Paced(rig.plant.sup.log, GapBefore(rig, true, rest), GapBefore(rig, false, rest), until, cutoff);
      }
    } else {
      NothingRecentIsPaced(rig.plant.sup.log, GapBefore(rig, !on, rest), GapBefore(rig, on, rest),
                           time - GapBefore(rig, on, rest), cutoff);
    }
  }

  lemma RoomForTheNext(setup: Setup, rig: Rig, time: real, tick: int, cutoff: real, ceiling: int, rest: nat, on: bool)
    requires LogFollowsHold(rig, cutoff, rest) && Due(rig, tick, on, rest)
    requires rig.plant.world.config.tickSeconds > 0.0 && rig.controller.program.minHoldTicks >= 1
    requires time == tick as real * rig.plant.world.config.tickSeconds
    requires cutoff <= time - setup.policy.windowSeconds && RoomyFor(setup, rig, ceiling, rest)
    ensures Room(setup, rig.plant.sup.log, time, ceiling)
  {
    GapsArePositive(rig, rest);
    EitherOrder(setup.policy.windowSeconds, ceiling, GapBefore(rig, false, rest), GapBefore(rig, true, rest));
    PacedUpTo(rig, time, tick, cutoff, rest, on);
    CountFits(rig.plant.sup.log, GapBefore(rig, on, rest), GapBefore(rig, !on, rest), time, cutoff,
              setup.policy.windowSeconds, ceiling);
  }

  /** Undisturbed, with the log paced, and the window open no earlier than `cutoff`. */
  ghost predicate Faithful(setup: Setup, rig: Rig, p: Program, cutoff: real, rest: nat) {
    && Steady(setup, rig, p)
    && LogFollowsHold(rig, cutoff, rest)
    && rig.plant.world.config.tickSeconds > 0.0 && setup.policy.windowSeconds >= 0.0
    && cutoff + setup.policy.windowSeconds <= (rig.plant.world.tick + 1) as real * rig.plant.world.config.tickSeconds
  }

  /** Same program and same ticks: the same gaps. */
  predicate SameBeat(rig: Rig, after: Rig) {
    after.controller.program == rig.controller.program && after.plant.world.config == rig.plant.world.config
  }

  lemma SameGaps(rig: Rig, after: Rig, rest: nat)
    requires SameBeat(rig, after)
    ensures forall on: bool :: GapBefore(after, on, rest) == GapBefore(rig, on, rest)
    ensures forall setup: Setup, ceiling: int :: RoomyFor(setup, rig, ceiling, rest) ==> RoomyFor(setup, after, ceiling, rest)
  {
  }

  lemma LogStillFollows(rig: Rig, after: Rig, cutoff: real, rest: nat)
    requires LogFollowsHold(rig, cutoff, rest) && SameBeat(rig, after)
    requires after.plant.sup.log == rig.plant.sup.log && SwitchOf(after.controller) == SwitchOf(rig.controller)
    ensures LogFollowsHold(after, cutoff, rest)
  {
    SameGaps(rig, after, rest);
  }

  lemma LogFollowsCommand(rig: Rig, after: Rig, cutoff: real, time: real, tick: int, rest: nat, on: bool)
    requires Paced(rig.plant.sup.log, GapBefore(rig, !on, rest), GapBefore(rig, on, rest),
                   time - GapBefore(rig, on, rest), cutoff)
    requires time == tick as real * rig.plant.world.config.tickSeconds && time >= cutoff && SameBeat(rig, after)
    requires after.plant.sup.log == rig.plant.sup.log + [Entry(time, Fan, true)]
    requires SwitchOf(after.controller) == Switch(Some(if on then On else Off), Some(tick))
    ensures LogFollowsHold(after, cutoff, rest)
  {
    SameGaps(rig, after, rest);
    var gap, other := GapBefore(rig, on, rest), GapBefore(rig, !on, rest);
    forall until: real | time <= until
      ensures Paced(after.plant.sup.log, gap, other, until, cutoff)
    {
      PacedAppend(rig.plant.sup.log, time, gap, other, until, cutoff);
    }
    if on {
      assert EverPaced(after.plant.sup.log, GapBefore(after, true, rest), GapBefore(after, false, rest), time, cutoff);
    } else {
      assert EverPaced(after.plant.sup.log, GapBefore(after, false, rest), GapBefore(after, true, rest), time, cutoff);
    }
  }

  lemma GapIsPositive(rig: Rig)
    requires rig.plant.world.config.tickSeconds > 0.0 && rig.controller.program.minHoldTicks >= 1
    ensures Gap(rig) > 0.0
  {
  }

  /** What the switch is told alternates, a hold apart. */
  lemma ToldIsDue(setup: Setup, rig: Rig, draw: Draw, p: Program, activation: Trigger, recovery: Trigger, cutoff: real,
                  rest: nat)
    requires Faithful(setup, rig, p, cutoff, rest)
    ensures var (next, told) := Told(rig, activation, recovery, draw);
      told.Some? ==>
        && (told.value == On || told.value == Off)
        && next == Switch(told, Some(rig.plant.world.tick + 1))
        && ((told.value == On && SwitchOf(rig.controller).lastChange.Some? ==>
               rig.plant.world.tick + 1 - SwitchOf(rig.controller).lastChange.value >= rest)
            ==> Due(rig, rig.plant.world.tick + 1, told.value == On, rest))
  {
  }

  /** The fan is not asked for again before it has rested. */
  predicate Rested(rig: Rig, draw: Draw, activation: Trigger, recovery: Trigger, rest: nat) {
    var last := SwitchOf(rig.controller).lastChange;
    Told(rig, activation, recovery, draw).1 == Some(On) && last.Some? ==> rig.plant.world.tick + 1 - last.value >= rest
  }

  /** A command that is due finds room, and the log it leaves is paced. */
  lemma CommandIsPaced(setup: Setup, rig: Rig, time: real, tick: int, cutoff: real, ceiling: int, rest: nat, on: bool,
                       after: Rig)
    requires LogFollowsHold(rig, cutoff, rest) && Due(rig, tick, on, rest)
    requires rig.plant.world.config.tickSeconds > 0.0 && rig.controller.program.minHoldTicks >= 1
    requires time == tick as real * rig.plant.world.config.tickSeconds && setup.policy.windowSeconds >= 0.0
    requires cutoff <= time - setup.policy.windowSeconds && SameBeat(rig, after)
    requires SwitchOf(after.controller) == Switch(Some(if on then On else Off), Some(tick))
    ensures RoomyFor(setup, rig, ceiling, rest) ==> Room(setup, rig.plant.sup.log, time, ceiling)
    ensures after.plant.sup.log == rig.plant.sup.log + [Entry(time, Fan, true)] ==> LogFollowsHold(after, cutoff, rest)
  {
    PacedUpTo(rig, time, tick, cutoff, rest, on);
    if RoomyFor(setup, rig, ceiling, rest) {
      RoomForTheNext(setup, rig, time, tick, cutoff, ceiling, rest, on);
    }
    if after.plant.sup.log == rig.plant.sup.log + [Entry(time, Fan, true)] {
      LogFollowsCommand(rig, after, cutoff, time, tick, rest, on);
    }
  }

  lemma NextWindow(setup: Setup, rig: Rig, cutoff: real)
    requires rig.plant.world.config.tickSeconds > 0.0
    requires cutoff + setup.policy.windowSeconds <= (rig.plant.world.tick + 1) as real * rig.plant.world.config.tickSeconds
    ensures cutoff + setup.policy.windowSeconds <= (rig.plant.world.tick + 2) as real * rig.plant.world.config.tickSeconds
  {
    Times(rig.plant.world.tick + 1, rig.plant.world.tick + 2, rig.plant.world.config.tickSeconds);
  }

  lemma FaithfulNext(setup: Setup, rig: Rig, draw: Draw, p: Program, activation: Trigger, recovery: Trigger,
                     ceiling: int, cutoff: real, rest: nat, after: Rig, refused: bool)
    requires QuietStep(setup, rig, draw, activation, recovery, ceiling, after, refused)
    requires Faithful(setup, rig, p, cutoff, rest) && p.minHoldTicks >= 1
    requires Rested(rig, draw, activation, recovery, rest)
    ensures SameBeat(rig, after)
    ensures RoomyFor(setup, rig, ceiling, rest) ==> !refused && Faithful(setup, after, p, cutoff, rest)
  {
    var w := StepWorld(rig.plant.world, draw);
    var told := Told(rig, activation, recovery, draw).1;
    NextWindow(setup, rig, cutoff);
    if told.Some? {
      ToldIsDue(setup, rig, draw, p, activation, recovery, cutoff, rest);
      CommandIsPaced(setup, rig, w.time, w.tick, cutoff, ceiling, rest, told.value == On, after);
    } else {
      LogStillFollows(rig, after, cutoff, rest);
    }
  }

  lemma FaithfulTick(setup: Setup, rig: Rig, p: Program, activation: Trigger, recovery: Trigger, ceiling: int,
                     cutoff: real, draw: Draw)
    requires Ready(setup, p, activation, recovery, ceiling) && Faithful(setup, rig, p, cutoff, 0)
    requires QuietAhead(setup, rig, draw) && RoomyFor(setup, rig, ceiling, 0)
    ensures var after := LoopTick(setup, rig, draw, false);
      && Faithful(setup, after, p, cutoff, 0) && SameBeat(rig, after) && !RefusedForBudget(setup, rig, draw)
  {
    QuietTick(setup, rig, p, activation, recovery, ceiling, draw);
    FaithfulNext(setup, rig, draw, p, activation, recovery, ceiling, cutoff, 0, LoopTick(setup, rig, draw, false),
                 RefusedForBudget(setup, rig, draw));
  }

  /** The next tick is inside the lease and reads below the emergency threshold. */
  ghost function Quiet(setup: Setup): (Rig, Draw) -> bool {
    (rig: Rig, draw: Draw) => rig.controller.startedAt.Some? && QuietAhead(setup, rig, draw)
  }

  ghost function Unrefused(setup: Setup): (Rig, Draw) -> bool
    requires setup.Valid()
  {
    (rig: Rig, draw: Draw) => !RefusedForBudget(setup, rig, draw)
  }

  predicate BudgetNeverRefuses(rows: seq<Row>) {
    forall i :: 0 <= i < |rows| ==> RejectedTransitionBudget !in rows[i].verdicts
  }

  ghost predicate FaithfulLoop(setup: Setup, rig: Rig, p: Program, ceiling: int, cutoff: real) {
    Faithful(setup, rig, p, cutoff, 0) && RoomyFor(setup, rig, ceiling, 0)
  }

  lemma {:induction false} FaithfulRun(setup: Setup, rig: Rig, p: Program, activation: Trigger, recovery: Trigger,
                                       ceiling: int, cutoff: real, draws: seq<Draw>)
    requires Ready(setup, p, activation, recovery, ceiling) && FaithfulLoop(setup, rig, p, ceiling, cutoff)
    requires Throughout(Ticker(setup), Quiet(setup), rig, draws)
    ensures FaithfulLoop(setup, Iterate(Ticker(setup), rig, draws), p, ceiling, cutoff)
    ensures Throughout(Ticker(setup), Unrefused(setup), rig, draws)
  {
    var step := Ticker(setup);
    var faithful := (r: Rig) => FaithfulLoop(setup, r, p, ceiling, cutoff);
    forall r, d {:trigger Quiet(setup)(r, d)} | faithful(r) && Quiet(setup)(r, d)
      ensures faithful(step(r, d)) && Unrefused(setup)(r, d)
    {
      FaithfulTick(setup, r, p, activation, recovery, ceiling, cutoff, d);
      SameGaps(r, step(r, d), 0);
    }
    Carry(step, faithful, Quiet(setup), Unrefused(setup), rig, draws);
  }

  /** What the controller believes of its fan is true. */
  predicate KnowsItsFan(rig: Rig) {
    Fan in rig.controller.commanded && rig.controller.commanded[Fan] == rig.plant.world.actuators[Fan]
  }

  lemma {:induction false} KnowsItsFanAfter(setup: Setup, rig: Rig, p: Program, activation: Trigger,
                                            recovery: Trigger, ceiling: int, cutoff: real, draws: seq<Draw>, i: nat)
    requires Ready(setup, p, activation, recovery, ceiling) && FaithfulLoop(setup, rig, p, ceiling, cutoff)
    requires Throughout(Ticker(setup), Quiet(setup), rig, draws) && i <= |draws|
    ensures KnowsItsFan(RunLoop(setup, rig, draws[..i], None))
  {
    assert draws == draws[..i] + draws[i..];
    Split(Ticker(setup), Quiet(setup), rig, draws[..i], draws[i..]);
    FaithfulRun(setup, rig, p, activation, recovery, ceiling, cutoff, draws[..i]);
    RunIsIterate(setup, rig, draws[..i]);
  }

  /** Where as many holds as the ceiling allows outlast the window, no rest is needed. */
  lemma RoomyByHold(window: real, ceiling: int, hold: int, dt: real, gap: real)
    requires dt > 0.0 && hold >= 1 && window >= 0.0 && gap == hold as real * dt && gap > 0.0
    ensures Roomy(window, ceiling, hold, 0, dt) <==> window < ceiling as real * gap
  {
    if ceiling < 1 {
      Times(ceiling, 0, gap);
    } else {
      SpanOfEqual(ceiling, gap);
      assert GapTo(false, hold, 0, dt) == gap && GapTo(true, hold, 0, dt) == gap;
      assert Span(ceiling, GapTo(false, hold, 0, dt), GapTo(true, hold, 0, dt)) == Span(ceiling, gap, gap);
    }
  }

  lemma HoldIsRoomy(setup: Setup, rig: Rig, ceiling: int)
    requires rig.plant.world.config.tickSeconds > 0.0 && rig.controller.program.minHoldTicks >= 1
    requires setup.policy.windowSeconds >= 0.0 && setup.policy.windowSeconds < ceiling as real * Gap(rig)
    ensures RoomyFor(setup, rig, ceiling, 0)
  {
    GapIsPositive(rig);
    RoomyByHold(setup.policy.windowSeconds, ceiling, rig.controller.program.minHoldTicks,
                rig.plant.world.config.tickSeconds, Gap(rig));
  }

  /** While operation stays normal and no emergency comes up: if fewer holds fit into the window than
      the ceiling allows, no command is ever refused for the budget, and after every tick the
      controller knows the true state of its fan. */
  lemma {:induction false} HoldKeepsBudget(setup: Setup, rig: Rig, p: Program, activation: Trigger, recovery: Trigger,
                                           ceiling: int, cutoff: real, draws: seq<Draw>)
    requires Ready(setup, p, activation, recovery, ceiling) && Faithful(setup, rig, p, cutoff, 0)
    requires Throughout(Ticker(setup), Quiet(setup), rig, draws)
    requires setup.policy.windowSeconds < ceiling as real * Gap(rig)
    ensures BudgetNeverRefuses(RowsOf(setup, rig, draws, None))
    ensures forall i :: 0 <= i <= |draws| ==> KnowsItsFan(RunLoop(setup, rig, draws[..i], None))
  {
    HoldIsRoomy(setup, rig, ceiling);
    FaithfulRun(setup, rig, p, activation, recovery, ceiling, cutoff, draws);
    RefusalsShow(setup, rig, draws);
    forall i | 0 <= i <= |draws|
      ensures KnowsItsFan(RunLoop(setup, rig, draws[..i], None))
    {
      KnowsItsFanAfter(setup, rig, p, activation, recovery, ceiling, cutoff, draws, i);
    }
  }

  /** A loop that has just been initialised, with no fan transition in the window of its first tick. */
  ghost predicate FreshStart(setup: Setup, rig: Rig, p: Program) {
    && Steady(setup, rig, p) && Fan !in rig.controller.lastTransition
    && rig.plant.world.config.tickSeconds > 0.0 && setup.policy.windowSeconds >= 0.0
    && RecentTransitions(rig.plant.sup.log, Fan,
         (rig.plant.world.tick + 1) as real * rig.plant.world.config.tickSeconds - setup.policy.windowSeconds) == 0
  }

  lemma FreshIsFaithful(setup: Setup, rig: Rig, p: Program, rest: nat)
    requires FreshStart(setup, rig, p)
    ensures Faithful(setup, rig, p,
      (rig.plant.world.tick + 1) as real * rig.plant.world.config.tickSeconds - setup.policy.windowSeconds, rest)
  {
  }

  // ----- And only then -----

  /** A reading that asks for the opposite of a fan level. */
  function Opposite(fan: Level, hot: real, cold: real): real { if fan == On then cold else hot }

  /** The draw that makes the next reading come out at a chosen value. */
  function DrawFor(w: World, reading: real): Draw {
    Draw(reading - StepWorld(w, Draw(0.0, 0.0)).temp, 0.0)
  }

  /** The sensor can be anywhere, and two readings below the emergency ask for the fan and against it. */
  predicate Provocable(setup: Setup, rig: Rig, activation: Trigger, recovery: Trigger, hot: real, cold: real) {
    var config := rig.plant.world.config;
    && config.sensorNoise != 0.0 && config.sensorFault.NoFault? && config.tickSeconds > 0.0
    && hot < setup.policy.emergencyC && cold < setup.policy.emergencyC
    && activation.Evaluate(map[TemperatureC := hot, DistanceCm := 0.0])
    && recovery.Evaluate(map[TemperatureC := cold, DistanceCm := 0.0])
  }

  lemma DrawnReading(w: World, reading: real)
    requires w.config.sensorNoise != 0.0 && w.config.sensorFault.NoFault?
    ensures MetricsOf(StepWorld(w, DrawFor(w, reading))) == map[TemperatureC := reading, DistanceCm := 0.0]
  {
    var v, base := StepWorld(w, DrawFor(w, reading)), StepWorld(w, Draw(0.0, 0.0));
    assert v == base.(noise := reading - base.temp);
  }

  /** The next reading asks for the opposite of the fan's level whenever the hold lets it be told. */
  ghost predicate Demanding(setup: Setup, rig: Rig, p: Program, activation: Trigger, recovery: Trigger, draw: Draw) {
    var n := rig.plant.world.tick + 1;
    var last := SwitchOf(rig.controller).lastChange;
    var (next, told) := Told(rig, activation, recovery, draw);
    && Reading(StepWorld(rig.plant.world, draw)) < setup.policy.emergencyC
    && (told.Some? <==> last.None? || n - last.value >= p.minHoldTicks)
    && next.lastChange == if told.Some? then Some(n) else last
  }

  lemma {:induction false} ProvokedTold(setup: Setup, rig: Rig, p: Program, activation: Trigger, recovery: Trigger,
                                        ceiling: int, hot: real, cold: real)
    requires Ready(setup, p, activation, recovery, ceiling) && Steady(setup, rig, p)
    requires Provocable(setup, rig, activation, recovery, hot, cold)
    ensures Demanding(setup, rig, p, activation, recovery,
                      DrawFor(rig.plant.world, Opposite(rig.plant.world.actuators[Fan], hot, cold)))
  {
    var world := rig.plant.world;
    var reading := Opposite(world.actuators[Fan], hot, cold);
    DrawnReading(world, reading);
    OppositeFlips(SwitchOf(rig.controller), activation, recovery, p.minHoldTicks,
                  Observe(StepWorld(world, DrawFor(world, reading))), world.actuators[Fan], hot, cold);
  }

  /** Shown the reading that asks for the other level, the switch flips as soon as the hold is over. */
  lemma OppositeFlips(s: Switch, activation: Trigger, recovery: Trigger, hold: int, o: Observation, level: Level,
                      hot: real, cold: real)
    requires Disjoint(activation, recovery)
    requires Some(level) == if s.position.Some? then s.position else Lookup(o.actuators, Fan)
    requires activation.Evaluate(map[TemperatureC := hot, DistanceCm := 0.0])
    requires recovery.Evaluate(map[TemperatureC := cold, DistanceCm := 0.0])
    requires o.metrics == map[TemperatureC := Opposite(level, hot, cold), DistanceCm := 0.0]
    ensures var (next, told) := Flip(s, activation, recovery, hold, o);
      && (told.Some? <==> s.lastChange.None? || o.tick - s.lastChange.value >= hold)
      && next.lastChange == if told.Some? then Some(o.tick) else s.lastChange
  {
    assert !(activation.Evaluate(o.metrics) && recovery.Evaluate(o.metrics));
  }

  /** A family of states in which one draw or another is always demanding. */
  ghost predicate Restless(setup: Setup, p: Program, activation: Trigger, recovery: Trigger, ceiling: int,
                           demand: Rig -> Draw, restless: Rig -> bool)
  {
    && (forall r {:trigger restless(r)} :: restless(r) && Steady(setup, r, p) ==>
          Demanding(setup, r, p, activation, recovery, demand(r)))
    && (forall r, after {:trigger QuietStep(setup, r, demand(r), activation, recovery, ceiling, after, false)} ::
          restless(r) && Steady(setup, r, p) ==>
            (QuietStep(setup, r, demand(r), activation, recovery, ceiling, after, false) ==> restless(after)))
  }

  /** The run still fits into the lease until tick `end`. */
  predicate LeasedUntil(rig: Rig, end: int)
    requires rig.controller.startedAt.Some?
  {
    end as real * rig.plant.world.config.tickSeconds - rig.controller.startedAt.value
      < rig.controller.program.maximumDurationSeconds as real
  }

  lemma OneMoreTransition(log: seq<Entry>, time: real, since: real)
    requires since <= time
    ensures RecentTransitions(log + [Entry(time, Fan, true)], Fan, since) == RecentTransitions(log, Fan, since) + 1
  {
    assert (log + [Entry(time, Fan, true)])[..|log|] == log;
  }

  /** Where the provocation stands at a tick: `done` transitions have been logged since the window of
      tick `end` opened, the last of them early enough for the rest to follow, one per hold, by `end`. */
  ghost predicate OnCourse(log: seq<Entry>, since: real, last: Option<int>, tick: int, hold: int, ceiling: int,
                           first: int, end: int, done: int)
  {
    && hold >= 1 && 0 <= done <= ceiling
    && first + ceiling * hold <= end
    && first <= tick + 1
    && RecentTransitions(log, Fan, since) >= done
    && (if last.Some? then last.value + hold <= first + done * hold && tick - last.value < hold
        else tick + 1 == first)
  }

  /** The start of the window that ends with tick `end`. */
  function WindowStart(setup: Setup, dt: real, end: int): real { end as real * dt - setup.policy.windowSeconds }

  ghost predicate Provoking(setup: Setup, rig: Rig, p: Program, ceiling: int, first: int, end: int, done: int) {
    var dt := rig.plant.world.config.tickSeconds;
    && Steady(setup, rig, p) && LeasedUntil(rig, end)
    && dt > 0.0 && WindowStart(setup, dt, end) <= first as real * dt
    && OnCourse(rig.plant.sup.log, WindowStart(setup, dt, end), SwitchOf(rig.controller).lastChange,
                rig.plant.world.tick, p.minHoldTicks, ceiling, first, end, done)
  }

  /** The next command is due no later than the hold after the last one, hence by tick `end`. */
  lemma InTime(log: seq<Entry>, since: real, last: Option<int>, tick: int, hold: int, ceiling: int, first: int,
               end: int, done: int)
    requires OnCourse(log, since, last, tick, hold, ceiling, first, end, done)
    ensures tick + 1 <= first + done * hold <= end
  {
    Monotone(done, ceiling, hold);
    Monotone(0, done, hold);
  }

  /** A command that finds room counts one more transition, and room means the count was short. */
  lemma CommandKeepsCourse(log: seq<Entry>, since: real, last: Option<int>, tick: int, hold: int, ceiling: int,
                           first: int, end: int, done: int, time: real, start: real)
    requires OnCourse(log, since, last, tick, hold, ceiling, first, end, done)
    requires start <= since <= time && RecentTransitions(log, Fan, start) < ceiling
    ensures OnCourse(log + [Entry(time, Fan, true)], since, Some(tick + 1), tick + 1, hold, ceiling, first, end,
                     done + 1)
  {
    InTime(log, since, last, tick, hold, ceiling, first, end, done);
    MoreSinceEarlier(log, Fan, since, start);
    OneMoreTransition(log, time, since);
    assert (done + 1) * hold == done * hold + hold;
  }

  lemma Windows(setup: Setup, dt: real, first: int, n: int, end: int)
    requires dt > 0.0 && first <= n <= end && WindowStart(setup, dt, end) <= first as real * dt
    ensures n as real * dt - setup.policy.windowSeconds <= WindowStart(setup, dt, end) <= n as real * dt
  {
    Times(n, end, dt);
    Times(first, n, dt);
  }

  /** The course over one tick, with a command that found room or with none allowed yet. */
  lemma CourseTick(setup: Setup, log: seq<Entry>, since: real, last: Option<int>, tick: int, hold: int, ceiling: int,
                   first: int, end: int, done: int, time: real)
    requires OnCourse(log, since, last, tick, hold, ceiling, first, end, done)
    requires time - setup.policy.windowSeconds <= since <= time
    ensures Room(setup, log, time, ceiling) ==>
      OnCourse(log + [Entry(time, Fan, true)], since, Some(tick + 1), tick + 1, hold, ceiling, first, end, done + 1)
    ensures last.Some? && tick + 1 - last.value < hold ==>
      OnCourse(log, since, last, tick + 1, hold, ceiling, first, end, done)
  {
    if Room(setup, log, time, ceiling) {
      CommandKeepsCourse(log, since, last, tick, hold, ceiling, first, end, done, time,
                         time - setup.policy.windowSeconds);
    }
  }

  /** What the plant's obedience does to the log and the clock. */
  lemma LogAfter(setup: Setup, rig: Rig, draw: Draw, activation: Trigger, recovery: Trigger, ceiling: int, after: Rig)
    requires QuietStep(setup, rig, draw, activation, recovery, ceiling, after, false)
    ensures var time := StepWorld(rig.plant.world, draw).time;
      var told := Told(rig, activation, recovery, draw).1;
      && after.plant.world.config == rig.plant.world.config
      && after.plant.world.tick == rig.plant.world.tick + 1
      && (told.Some? ==> Room(setup, rig.plant.sup.log, time, ceiling))
      && after.plant.sup.log
           == if told.Some? then rig.plant.sup.log + [Entry(time, Fan, true)] else rig.plant.sup.log
  {
  }

  lemma ProvokedTick(setup: Setup, rig: Rig, p: Program, ceiling: int, first: int, end: int, done: int, after: Rig,
                     told: bool, time: real)
    requires Provoking(setup, rig, p, ceiling, first, end, done)
    requires Steady(setup, after, p) && LeasedUntil(after, end)
    requires after.plant.world.config == rig.plant.world.config
    requires after.plant.world.tick == rig.plant.world.tick + 1
    requires time == after.plant.world.tick as real * rig.plant.world.config.tickSeconds
    requires after.plant.sup.log == if told then rig.plant.sup.log + [Entry(time, Fan, true)] else rig.plant.sup.log
    requires told ==> Room(setup, rig.plant.sup.log, time, ceiling)
    requires var n := rig.plant.world.tick + 1;
      var last := SwitchOf(rig.controller).lastChange;
      && (told <==> last.None? || n - last.value >= p.minHoldTicks)
      && SwitchOf(after.controller).lastChange == if told then Some(n) else last
    ensures Provoking(setup, after, p, ceiling, first, end, if told then done + 1 else done)
  {
    CourseKept(setup, rig.plant.sup.log, SwitchOf(rig.controller).lastChange, rig.plant.world.tick,
               rig.plant.world.config.tickSeconds, p.minHoldTicks, ceiling, first, end, done, time);
  }

  lemma CourseKept(setup: Setup, log: seq<Entry>, last: Option<int>, tick: int, dt: real, hold: int, ceiling: int,
                   first: int, end: int, done: int, time: real)
    requires dt > 0.0 && WindowStart(setup, dt, end) <= first as real * dt
    requires OnCourse(log, WindowStart(setup, dt, end), last, tick, hold, ceiling, first, end, done)
    requires time == (tick + 1) as real * dt
    ensures var since := WindowStart(setup, dt, end);
      && (Room(setup, log, time, ceiling) ==>
            OnCourse(log + [Entry(time, Fan, true)], since, Some(tick + 1), tick + 1, hold, ceiling, first, end,
                     done + 1))
      && (last.Some? && tick + 1 - last.value < hold ==>
            OnCourse(log, since, last, tick + 1, hold, ceiling, first, end, done))
  {
    var since := WindowStart(setup, dt, end);
    InTime(log, since, last, tick, hold, ceiling, first, end, done);
    Windows(setup, dt, first, tick + 1, end);
    CourseTick(setup, log, since, last, tick, hold, ceiling, first, end, done, time);
  }

  lemma ProvokedStep(setup: Setup, rig: Rig, draw: Draw, p: Program, activation: Trigger, recovery: Trigger,
                     ceiling: int, first: int, end: int, done: int, after: Rig, told: bool)
    requires Provoking(setup, rig, p, ceiling, first, end, done)
    requires QuietStep(setup, rig, draw, activation, recovery, ceiling, after, false)
    requires told == Told(rig, activation, recovery, draw).1.Some?
    requires var n := rig.plant.world.tick + 1;
      var last := SwitchOf(rig.controller).lastChange;
      && (told <==> last.None? || n - last.value >= p.minHoldTicks)
      && SwitchOf(after.controller).lastChange == if told then Some(n) else last
    ensures Provoking(setup, after, p, ceiling, first, end, if told then done + 1 else done)
  {
    LogAfter(setup, rig, draw, activation, recovery, ceiling, after);
    ProvokedTick(setup, rig, p, ceiling, first, end, done, after, told, StepWorld(rig.plant.world, draw).time);
  }

  lemma InsideLease(rig: Rig, n: int, end: int)
    requires rig.controller.startedAt.Some? && LeasedUntil(rig, end) && n <= end
    requires rig.plant.world.config.tickSeconds > 0.0
    ensures !Elapsed(rig.controller, n as real * rig.plant.world.config.tickSeconds)
  {
    Times(n, end, rig.plant.world.config.tickSeconds);
  }

  lemma InLease(setup: Setup, rig: Rig, p: Program, ceiling: int, first: int, end: int, done: int, draw: Draw)
    requires Provoking(setup, rig, p, ceiling, first, end, done)
    requires Reading(StepWorld(rig.plant.world, draw)) < setup.policy.emergencyC
    ensures QuietAhead(setup, rig, draw) && rig.plant.world.tick < end
  {
    InTime(rig.plant.sup.log, WindowStart(setup, rig.plant.world.config.tickSeconds, end),
           SwitchOf(rig.controller).lastChange, rig.plant.world.tick, p.minHoldTicks, ceiling, first, end, done);
    InsideLease(rig, rig.plant.world.tick + 1, end);
  }

  lemma AllOf(ok: Draw -> bool, draw: Draw, rest: seq<Draw>)
    requires ok(draw) && forall i :: 0 <= i < |rest| ==> ok(rest[i])
    ensures forall i :: 0 <= i < |[draw] + rest| ==> ok(([draw] + rest)[i])
  {
  }

  /** If as many holds fit into the window as the ceiling allows, demanding the opposite on every tick
      ends in a refusal, and with the controller believing something false of its fan. */
  lemma {:induction false} Starve(setup: Setup, rig: Rig, p: Program, activation: Trigger, recovery: Trigger,
                                  ceiling: int, demand: Rig -> Draw, restless: Rig -> bool, ok: Draw -> bool,
                                  first: int, end: int, done: int)
    returns (draws: seq<Draw>)
    requires Ready(setup, p, activation, recovery, ceiling)
    requires Restless(setup, p, activation, recovery, ceiling, demand, restless) && restless(rig)
    requires forall r :: ok(demand(r))
    requires Provoking(setup, rig, p, ceiling, first, end, done)
    ensures Throughout(Ticker(setup), Quiet(setup), rig, draws) && forall i :: 0 <= i < |draws| ==> ok(draws[i])
    ensures !Throughout(Ticker(setup), Unrefused(setup), rig, draws)
    ensures !KnowsItsFan(Iterate(Ticker(setup), rig, draws))
    decreases end - rig.plant.world.tick
  {
    var draw, after := demand(rig), Ticker(setup)(rig, demand(rig));
    var counted := if Told(rig, activation, recovery, draw).1.Some? then done + 1 else done;
    RestlessStep(setup, rig, p, activation, recovery, ceiling, demand, restless, first, end, done, counted);
    var rest: seq<Draw> := [];
    if !RefusedForBudget(setup, rig, draw) {
      rest := Starve(setup, after, p, activation, recovery, ceiling, demand, restless, ok, first, end, counted);
    }
    draws := [draw] + rest;
    AllOf(ok, draw, rest);
    Cons(Ticker(setup), Quiet(setup), rig, draw, rest);
    Cons(Ticker(setup), Unrefused(setup), rig, draw, rest);
  }

  lemma RestlessStep(setup: Setup, rig: Rig, p: Program, activation: Trigger, recovery: Trigger, ceiling: int,
                     demand: Rig -> Draw, restless: Rig -> bool, first: int, end: int, done: int, counted: int)
    requires Ready(setup, p, activation, recovery, ceiling)
    requires Restless(setup, p, activation, recovery, ceiling, demand, restless) && restless(rig)
    requires Provoking(setup, rig, p, ceiling, first, end, done)
    requires counted == if Told(rig, activation, recovery, demand(rig)).1.Some? then done + 1 else done
    ensures var after := LoopTick(setup, rig, demand(rig), false);
      && QuietAhead(setup, rig, demand(rig)) && rig.plant.world.tick < end
      && (if RefusedForBudget(setup, rig, demand(rig)) then !KnowsItsFan(after)
          else restless(after) && Provoking(setup, after, p, ceiling, first, end, counted)
               && after.plant.world.tick == rig.plant.world.tick + 1)
  {
    var draw, after := demand(rig), LoopTick(setup, rig, demand(rig), false);
    assert Demanding(setup, rig, p, activation, recovery, draw);
    InLease(setup, rig, p, ceiling, first, end, done, draw);
    QuietTick(setup, rig, p, activation, recovery, ceiling, draw);
    if !RefusedForBudget(setup, rig, draw) {
      ProvokedStep(setup, rig, draw, p, activation, recovery, ceiling, first, end, done, after,
                   Told(rig, activation, recovery, draw).1.Some?);
    }
  }

  /** No undisturbed run from here has a command refused for the budget. */
  ghost predicate NeverStarved(setup: Setup, rig: Rig)
    requires setup.Valid()
  {
    forall draws :: Throughout(Ticker(setup), Quiet(setup), rig, draws) ==>
      BudgetNeverRefuses(RowsOf(setup, rig, draws, None))
  }

  lemma EnoughRoom(setup: Setup, rig: Rig, p: Program, activation: Trigger, recovery: Trigger, ceiling: int)
    requires Ready(setup, p, activation, recovery, ceiling) && FreshStart(setup, rig, p)
    requires setup.policy.windowSeconds >= 0.0
    requires setup.policy.windowSeconds < ceiling as real * Gap(rig)
    ensures NeverStarved(setup, rig)
  {
    FreshIsFaithful(setup, rig, p, 0);
    forall draws | Throughout(Ticker(setup), Quiet(setup), rig, draws)
      ensures BudgetNeverRefuses(RowsOf(setup, rig, draws, None))
    {
      HoldKeepsBudget(setup, rig, p, activation, recovery, ceiling,
                      WindowStart(setup, rig.plant.world.config.tickSeconds, rig.plant.world.tick + 1), draws);
    }
  }

  /** The exact condition: started fresh, on a device whose readings can ask for the fan and against
      it without an emergency, commands are never refused for the budget in any undisturbed run if
      and only if fewer holds fit into the window than the ceiling allows. */
  lemma {:induction false} BudgetHoldsExactlyWhen(setup: Setup, rig: Rig, p: Program, activation: Trigger,
                                                  recovery: Trigger, ceiling: int, hot: real, cold: real)
    requires Ready(setup, p, activation, recovery, ceiling) && FreshStart(setup, rig, p)
    requires Provocable(setup, rig, activation, recovery, hot, cold)
    requires ceiling >= 1 && setup.policy.windowSeconds >= 0.0
    requires LeasedUntil(rig, rig.plant.world.tick + 1 + ceiling * p.minHoldTicks)
    ensures NeverStarved(setup, rig) <==> setup.policy.windowSeconds < ceiling as real * Gap(rig)
  {
    if setup.policy.windowSeconds < ceiling as real * Gap(rig) {
      EnoughRoom(setup, rig, p, activation, recovery, ceiling);
    } else {
      TooLittleRoom(setup, rig, p, activation, recovery, ceiling, hot, cold);
    }
  }

  lemma TooLittleRoom(setup: Setup, rig: Rig, p: Program, activation: Trigger, recovery: Trigger, ceiling: int,
                      hot: real, cold: real)
    requires Ready(setup, p, activation, recovery, ceiling) && FreshStart(setup, rig, p)
    requires Provocable(setup, rig, activation, recovery, hot, cold)
    requires ceiling >= 1 && setup.policy.windowSeconds >= ceiling as real * Gap(rig)
    requires LeasedUntil(rig, rig.plant.world.tick + 1 + ceiling * p.minHoldTicks)
    ensures !NeverStarved(setup, rig)
  {
    var draws := SomeRunIsRefused(setup, rig, p, activation, recovery, ceiling, hot, cold);
    RefusedIsStarved(setup, rig, draws);
  }

  lemma RefusedIsStarved(setup: Setup, rig: Rig, draws: seq<Draw>)
    requires setup.Valid() && Throughout(Ticker(setup), Quiet(setup), rig, draws)
    requires !BudgetNeverRefuses(RowsOf(setup, rig, draws, None))
    ensures !NeverStarved(setup, rig)
  {
  }

  lemma {:induction false} SomeRunIsRefused(setup: Setup, rig: Rig, p: Program, activation: Trigger,
                                            recovery: Trigger, ceiling: int, hot: real, cold: real)
    returns (draws: seq<Draw>)
    requires Ready(setup, p, activation, recovery, ceiling) && FreshStart(setup, rig, p)
    requires Provocable(setup, rig, activation, recovery, hot, cold)
    requires ceiling >= 1 && setup.policy.windowSeconds >= ceiling as real * Gap(rig)
    requires LeasedUntil(rig, rig.plant.world.tick + 1 + ceiling * p.minHoldTicks)
    ensures Throughout(Ticker(setup), Quiet(setup), rig, draws)
    ensures !BudgetNeverRefuses(RowsOf(setup, rig, draws, None))
    ensures !KnowsItsFan(RunLoop(setup, rig, draws, None))
  {
    var restless := (r: Rig) => Provocable(setup, r, activation, recovery, hot, cold);
    var demand := (r: Rig) => DrawFor(r.plant.world, Opposite(r.plant.world.actuators[Fan], hot, cold));
    ProvocableIsRestless(setup, p, activation, recovery, ceiling, hot, cold, demand, restless);
    draws := RestlessRunIsRefused(setup, rig, p, activation, recovery, ceiling, demand, restless, (d: Draw) => true);
  }

  lemma ProvocableIsRestless(setup: Setup, p: Program, activation: Trigger, recovery: Trigger, ceiling: int, hot: real,
                             cold: real, demand: Rig -> Draw, restless: Rig -> bool)
    requires Ready(setup, p, activation, recovery, ceiling)
    requires forall r :: restless(r) == Provocable(setup, r, activation, recovery, hot, cold)
    requires forall r :: demand(r) == DrawFor(r.plant.world, Opposite(r.plant.world.actuators[Fan], hot, cold))
    ensures Restless(setup, p, activation, recovery, ceiling, demand, restless)
  {
    forall r {:trigger restless(r)} | restless(r) && Steady(setup, r, p)
      ensures Demanding(setup, r, p, activation, recovery, demand(r))
    {
      ProvokedTold(setup, r, p, activation, recovery, ceiling, hot, cold);
    }
    forall r, after {:trigger QuietStep(setup, r, demand(r), activation, recovery, ceiling, after, false)} |
      restless(r) && Steady(setup, r, p)
      && QuietStep(setup, r, demand(r), activation, recovery, ceiling, after, false)
      ensures restless(after)
    {
      StaysProvocable(setup, r, activation, recovery, ceiling, hot, cold, demand(r), after);
    }
  }

  lemma StaysProvocable(setup: Setup, rig: Rig, activation: Trigger, recovery: Trigger, ceiling: int, hot: real,
                        cold: real, draw: Draw, after: Rig)
    requires Provocable(setup, rig, activation, recovery, hot, cold)
    requires QuietStep(setup, rig, draw, activation, recovery, ceiling, after, false)
    ensures Provocable(setup, after, activation, recovery, hot, cold)
  {
    LogAfter(setup, rig, draw, activation, recovery, ceiling, after);
  }

  /** A fresh run that never rests is refused in the end. */
  lemma {:induction false} RestlessRunIsRefused(setup: Setup, rig: Rig, p: Program, activation: Trigger,
                                                recovery: Trigger, ceiling: int, demand: Rig -> Draw,
                                                restless: Rig -> bool, ok: Draw -> bool)
    returns (draws: seq<Draw>)
    requires Ready(setup, p, activation, recovery, ceiling) && FreshStart(setup, rig, p)
    requires Restless(setup, p, activation, recovery, ceiling, demand, restless) && restless(rig)
    requires forall r :: ok(demand(r))
    requires ceiling >= 1 && setup.policy.windowSeconds >= ceiling as real * Gap(rig)
    requires LeasedUntil(rig, rig.plant.world.tick + 1 + ceiling * p.minHoldTicks)
    ensures Throughout(Ticker(setup), Quiet(setup), rig, draws) && forall i :: 0 <= i < |draws| ==> ok(draws[i])
    ensures !BudgetNeverRefuses(RowsOf(setup, rig, draws, None))
    ensures !KnowsItsFan(RunLoop(setup, rig, draws, None))
  {
    var first := rig.plant.world.tick + 1;
    StartProvoking(setup, rig, p, ceiling);
    draws := Starve(setup, rig, p, activation, recovery, ceiling, demand, restless, ok, first,
                    first + ceiling * p.minHoldTicks, 0);
    RefusalsShow(setup, rig, draws);
    RunIsIterate(setup, rig, draws);
  }

  lemma StartProvoking(setup: Setup, rig: Rig, p: Program, ceiling: int)
    requires FreshStart(setup, rig, p) && p.minHoldTicks >= 1
    requires ceiling >= 1 && setup.policy.windowSeconds >= ceiling as real * Gap(rig)
    requires LeasedUntil(rig, rig.plant.world.tick + 1 + ceiling * p.minHoldTicks)
    ensures Provoking(setup, rig, p, ceiling, rig.plant.world.tick + 1,
                      rig.plant.world.tick + 1 + ceiling * p.minHoldTicks, 0)
  {
    var dt, first := rig.plant.world.config.tickSeconds, rig.plant.world.tick + 1;
    WindowAhead(first, ceiling, p.minHoldTicks, dt, setup.policy.windowSeconds);
    StartsOnCourse(rig.plant.sup.log, WindowStart(setup, dt, first + ceiling * p.minHoldTicks), first,
                   p.minHoldTicks, ceiling);
  }

  lemma StartsOnCourse(log: seq<Entry>, since: real, first: int, hold: int, ceiling: int)
    requires hold >= 1 && ceiling >= 0
    ensures OnCourse(log, since, None, first - 1, hold, ceiling, first, first + ceiling * hold, 0)
  {
  }

  /** The window of the last of so many ticks opens no later than the first of them. */
  lemma WindowAhead(first: int, ceiling: int, hold: int, dt: real, window: real)
    requires window >= ceiling as real * (hold as real * dt)
    ensures (first + ceiling * hold) as real * dt - window <= first as real * dt
  {
    TotalTime(first, ceiling, hold, dt);
  }

  lemma TotalTime(first: int, ceiling: int, hold: int, dt: real)
    ensures (first + ceiling * hold) as real * dt == first as real * dt + ceiling as real * (hold as real * dt)
  {
    assert (ceiling * hold) as real == ceiling as real * hold as real;
    assert (ceiling as real * hold as real) * dt == ceiling as real * (hold as real * dt);
  }

  lemma {:induction false} RefusalsShow(setup: Setup, rig: Rig, draws: seq<Draw>)
    requires setup.Valid()
    ensures Throughout(Ticker(setup), Unrefused(setup), rig, draws)
       <==> BudgetNeverRefuses(RowsOf(setup, rig, draws, None))
  {
    RowsShow(setup, rig, draws, Unrefused(setup), (row: Row) => RejectedTransitionBudget !in row.verdicts);
  }
}
