// Runs of a machine, with or without the action of each step.
module Runs {

  ghost predicate Chain<S>(step: (S, S) -> bool, run: seq<S>) {
    forall n :: 0 <= n < |run| - 1 ==> step(run[n], run[n + 1])
  }

  ghost predicate Trace<S, A>(step: (S, S, A) -> bool, run: seq<S>, actions: seq<A>) {
    && |run| == |actions| + 1
    && forall n {:trigger actions[n]} :: 0 <= n < |actions| ==> step(run[n], run[n + 1], actions[n])
  }

  ghost predicate Keeps<S(!new), A(!new)>(inv: S -> bool, step: (S, S, A) -> bool) {
    forall s, s', a :: inv(s) && step(s, s', a) ==> inv(s')
  }

  // What holds at first and is kept by every step holds throughout.
  lemma {:induction false} Invariant<S(!new), A(!new)>(
    inv: S -> bool, step: (S, S, A) -> bool, run: seq<S>, actions: seq<A>, n: nat)
    requires Trace(step, run, actions) && n < |run| && inv(run[0]) && Keeps(inv, step)
    ensures inv(run[n])
  {
    if n > 0 {
      Invariant(inv, step, run, actions, n - 1);
      assert step(run[n - 1], run[n], actions[n - 1]);
    }
  }

  lemma ExtendTrace<S, A>(step: (S, S, A) -> bool, run: seq<S>, actions: seq<A>, next: S, a: A)
    requires Trace(step, run, actions) && step(run[|run| - 1], next, a)
    ensures Trace(step, run + [next], actions + [a])
  {
  }

  // Two chains that fit together are one.
  lemma JoinChains<S>(step: (S, S) -> bool, a: seq<S>, b: seq<S>)
    requires Chain(step, a) && Chain(step, b) && b != [] && (a != [] ==> step(a[|a| - 1], b[0]))
    ensures Chain(step, a + b)
  {
  }
}
