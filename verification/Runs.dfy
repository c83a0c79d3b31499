/** Runs of a transition system: the steps that are taken, one after the other, from a first state. */
module Runs {
  import opened Wrappers

  /** The state after the first `n` steps; a step that is not possible is left out. */
  function After<S, A>(next: (S, A) -> Option<S>, s: S, steps: seq<A>, n: nat): S
    requires n <= |steps|
  {
    if n == 0 then s
    else
      var t := After(next, s, steps, n - 1);
      var u := next(t, steps[n - 1]);
      if u.Some? then u.value else t
  }

  /** Step n is possible when its turn comes. */
  predicate Possible<S, A>(next: (S, A) -> Option<S>, s: S, steps: seq<A>, n: nat)
    requires n < |steps|
  {
    next(After(next, s, steps, n), steps[n]).Some?
  }

  predicate AllPossible<S, A>(next: (S, A) -> Option<S>, s: S, steps: seq<A>) {
    forall n | 0 <= n < |steps| :: Possible(next, s, steps, n)
  }

  lemma {:induction false} AfterNext<S, A>(next: (S, A) -> Option<S>, s: S, steps: seq<A>, n: nat)
    requires AllPossible(next, s, steps) && n < |steps|
    ensures next(After(next, s, steps, n), steps[n]) == Some(After(next, s, steps, n + 1))
  {
    assert Possible(next, s, steps, n);
  }

  lemma {:induction false} SamePrefix<S, A>(next: (S, A) -> Option<S>, s: S, steps: seq<A>, step: A, n: nat)
    requires n <= |steps|
    ensures After(next, s, steps + [step], n) == After(next, s, steps, n)
  {
    if n > 0 { SamePrefix(next, s, steps, step, n - 1); }
  }

  /** A possible step continues a run. */
  lemma {:induction false} Grow<S, A>(next: (S, A) -> Option<S>, s: S, steps: seq<A>, step: A)
    requires AllPossible(next, s, steps) && next(After(next, s, steps, |steps|), step).Some?
    ensures AllPossible(next, s, steps + [step])
    ensures Some(After(next, s, steps + [step], |steps| + 1)) == next(After(next, s, steps, |steps|), step)
  {
    SamePrefix(next, s, steps, step, |steps|);
    forall n | 0 <= n < |steps + [step]| ensures Possible(next, s, steps + [step], n) {
      if n < |steps| {
        SamePrefix(next, s, steps, step, n);
        assert Possible(next, s, steps, n);
      }
    }
  }
}
