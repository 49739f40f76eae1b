/** Runs of any machine that takes one input a step, and the invariants they carry. */
module Runs {
  import opened Arithmetic

  function Iterate<S, D>(step: (S, D) -> S, s: S, inputs: seq<D>): S
    decreases |inputs|
  {
    if inputs == [] then s else Iterate(step, step(s, inputs[0]), inputs[1..])
  }

  /** `good` holds of every state the run passes through, together with the input it takes there. */
  ghost predicate Throughout<S(!new), D(!new)>(step: (S, D) -> S, good: (S, D) -> bool, s: S, inputs: seq<D>)
    decreases |inputs|
  {
    inputs == [] || (good(s, inputs[0]) && Throughout(step, good, step(s, inputs[0]), inputs[1..]))
  }

  /** If every good step keeps the invariant and shows `seen`, then a run of good steps does. */
  lemma {:induction false} Carry<S(!new), D(!new)>(step: (S, D) -> S, inv: S -> bool, good: (S, D) -> bool,
                                                   seen: (S, D) -> bool, s: S, inputs: seq<D>)
    requires forall s, d {:trigger good(s, d)} :: inv(s) && good(s, d) ==> inv(step(s, d)) && seen(s, d)
    requires inv(s) && Throughout(step, good, s, inputs)
    ensures inv(Iterate(step, s, inputs)) && Throughout(step, seen, s, inputs)
    decreases |inputs|
  {
    if inputs != [] {
      Carry(step, inv, good, seen, step(s, inputs[0]), inputs[1..]);
    }
  }

  /** The same for a run of limited length, where a step is only known to be good while a counter that
      every step moves by one is below `end`. */
  lemma {:induction false} CarryUntil<S(!new), D(!new)>(step: (S, D) -> S, inv: S -> bool, ok: D -> bool,
                                                        count: S -> int, seen: (S, D) -> bool, s: S, inputs: seq<D>,
                                                        end: int)
    requires forall s, d :: inv(s) && ok(d) && count(s) < end ==>
      inv(step(s, d)) && count(step(s, d)) == count(s) + 1 && seen(s, d)
    requires inv(s) && count(s) + |inputs| <= end && forall i :: 0 <= i < |inputs| ==> ok(inputs[i])
    ensures inv(Iterate(step, s, inputs)) && Throughout(step, seen, s, inputs)
    decreases |inputs|
  {
    if inputs != [] {
      CarryUntil(step, inv, ok, count, seen, step(s, inputs[0]), inputs[1..], end);
    }
  }

  lemma Cons<S(!new), D(!new)>(step: (S, D) -> S, good: (S, D) -> bool, s: S, d: D, rest: seq<D>)
    ensures Iterate(step, s, [d] + rest) == Iterate(step, step(s, d), rest)
    ensures Throughout(step, good, s, [d] + rest) <==> good(s, d) && Throughout(step, good, step(s, d), rest)
  {
    assert ([d] + rest)[1..] == rest;
  }

  lemma {:induction false} Split<S(!new), D(!new)>(step: (S, D) -> S, good: (S, D) -> bool, s: S, first: seq<D>,
                                                   rest: seq<D>)
    ensures Iterate(step, s, first + rest) == Iterate(step, Iterate(step, s, first), rest)
    ensures Throughout(step, good, s, first + rest)
      <==> Throughout(step, good, s, first) && Throughout(step, good, Iterate(step, s, first), rest)
    decreases |first|
  {
    if first == [] {
      assert first + rest == rest;
    } else {
      assert (first + rest)[1..] == first[1..] + rest;
      Split(step, good, step(s, first[0]), first[1..], rest);
    }
  }

  function Each<D, E>(f: D -> E, inputs: seq<D>): seq<E> {
    if inputs == [] then [] else [f(inputs[0])] + Each(f, inputs[1..])
  }

  /** A machine whose good steps look, through `view`, like the steps of another follows its runs. */
  lemma {:induction false} Follows<S(!new), D(!new), T, E>(
    step: (S, D) -> S, other: (T, E) -> T, view: S -> T, input: D -> E, inv: S -> bool, good: (S, D) -> bool,
    s: S, inputs: seq<D>)
    requires forall s, d {:trigger good(s, d)} :: inv(s) && good(s, d) ==>
      inv(step(s, d)) && view(step(s, d)) == other(view(s), input(d))
    requires inv(s) && Throughout(step, good, s, inputs)
    ensures view(Iterate(step, s, inputs)) == Iterate(other, view(s), Each(input, inputs))
    decreases |inputs|
  {
    if inputs != [] {
      Follows(step, other, view, input, inv, good, step(s, inputs[0]), inputs[1..]);
    }
  }

  // ----- Meters -----

  /** How many steps of a run are marked. */
  function Marked<S, D>(step: (S, D) -> S, mark: (S, D) -> bool, s: S, inputs: seq<D>): nat
    decreases |inputs|
  {
    if inputs == [] then 0
    else (if mark(s, inputs[0]) then 1 else 0) + Marked(step, mark, step(s, inputs[0]), inputs[1..])
  }

  /** How many inputs have a property. */
  function Among<D>(p: D -> bool, inputs: seq<D>): nat {
    if inputs == [] then 0 else (if p(inputs[0]) then 1 else 0) + Among(p, inputs[1..])
  }

  /** A meter that every marked step of a live state moves by `delta`, and that must stay below a limit
      for the mark: once dead, nothing is marked any more, so the marks are bounded by the limit. */
  lemma {:induction false} MarksFit<S(!new), D(!new)>(
    step: (S, D) -> S, good: (S, D) -> bool, mark: (S, D) -> bool, live: S -> bool, dead: S -> bool,
    meter: S -> real, delta: real, limit: real, s: S, inputs: seq<D>)
    requires forall s, d {:trigger good(s, d)} :: dead(s) && good(s, d) ==> dead(step(s, d)) && !mark(s, d)
    requires forall s, d {:trigger good(s, d)} :: live(s) && good(s, d) ==>
      && (dead(step(s, d)) || (live(step(s, d)) && meter(step(s, d)) >= meter(s) + if mark(s, d) then delta else 0.0))
      && (mark(s, d) ==> meter(s) + delta < limit)
    requires (live(s) || dead(s)) && Throughout(step, good, s, inputs)
    ensures var k := Marked(step, mark, s, inputs);
      (dead(s) ==> k == 0) && (k == 0 || meter(s) + k as real * delta < limit)
    decreases |inputs|
  {
    if inputs != [] {
      var next := step(s, inputs[0]);
      MarksFit(step, good, mark, live, dead, meter, delta, limit, next, inputs[1..]);
      OneMore(Marked(step, mark, next, inputs[1..]), delta);
    }
  }

  /** A meter that every tick of an away state moves by `delta` and that must stay below a limit to stay
      away: with enough ticks the run comes home. */
  lemma {:induction false} ComesHome<S(!new), D(!new)>(
    step: (S, D) -> S, good: (S, D) -> bool, tick: D -> bool, away: S -> bool, home: S -> bool,
    meter: S -> real, delta: real, limit: real, s: S, inputs: seq<D>)
    requires forall s, d {:trigger good(s, d)} :: home(s) && good(s, d) ==> home(step(s, d))
    requires forall s, d {:trigger good(s, d)} :: away(s) && good(s, d) ==>
      || home(step(s, d))
      || (away(step(s, d)) && meter(step(s, d)) >= meter(s) + if tick(d) then delta else 0.0)
    requires forall s :: away(s) ==> meter(s) < limit
    requires Throughout(step, good, s, inputs)
    requires home(s) || (away(s) && meter(s) + Among(tick, inputs) as real * delta >= limit)
    ensures home(Iterate(step, s, inputs))
    decreases |inputs|
  {
    if inputs != [] {
      var rest := Among(tick, inputs[1..]);
      OneMore(rest, delta);
      ComesHome(step, good, tick, away, home, meter, delta, limit, step(s, inputs[0]), inputs[1..]);
    }
  }
}
