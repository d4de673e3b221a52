/** Runs of a step system, and induction over them. */
module Runs {

  /** The state after all events. */
  function Run<S, E>(step: (S, E) -> S, s: S, events: seq<E>): S
    decreases |events|
  {
    if events == [] then s else Run(step, step(s, events[0]), events[1..])
  }

  /** Each event is enabled in the state it happens in. */
  predicate Legal<S, E>(enabled: (S, E) -> bool, step: (S, E) -> S, s: S, events: seq<E>)
    decreases |events|
  {
    events == [] || (enabled(s, events[0]) && Legal(enabled, step, step(s, events[0]), events[1..]))
  }

  /** What every enabled step keeps, every legal run keeps. */
  lemma {:induction false} Invariant<S(!new), E(!new)>(
    enabled: (S, E) -> bool, step: (S, E) -> S, inv: S -> bool, s: S, events: seq<E>)
    requires inv(s) && Legal(enabled, step, s, events)
    requires forall t, e :: inv(t) && enabled(t, e) ==> inv(step(t, e))
    ensures inv(Run(step, s, events))
    decreases |events|
  {
    if events != [] {
      Invariant(enabled, step, inv, step(s, events[0]), events[1..]);
    }
  }

  /** A measure that no enabled step lowers is not lowered by a run. */
  lemma {:induction false} Monotone<S(!new), E(!new)>(
    enabled: (S, E) -> bool, step: (S, E) -> S, inv: S -> bool, measure: S -> int, s: S, events: seq<E>)
    requires inv(s) && Legal(enabled, step, s, events)
    requires forall t, e :: inv(t) && enabled(t, e) ==> inv(step(t, e)) && measure(step(t, e)) >= measure(t)
    ensures measure(Run(step, s, events)) >= measure(s)
    decreases |events|
  {
    if events != [] {
      Monotone(enabled, step, inv, measure, step(s, events[0]), events[1..]);
    }
  }
}
