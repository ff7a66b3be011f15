/** Runs of a transition system, and induction along them. */
module Runs {
  ghost predicate Path<S(!new), T(!new)>(states: seq<S>, turns: seq<T>, step: (S, T, S) -> bool) {
    |states| == |turns| + 1 && forall i :: 0 < i < |states| ==> step(states[i - 1], turns[i - 1], states[i])
  }

  /** What one state of a path satisfies and every step keeps, every later state satisfies. */
  lemma {:induction false} Along<S(!new), T(!new)>(states: seq<S>, turns: seq<T>, step: (S, T, S) -> bool, inv: S -> bool,
                                                   m: nat, n: nat)
    requires Path(states, turns, step) && m <= n < |states| && inv(states[m])
    requires forall p, t, q :: inv(p) && step(p, t, q) ==> inv(q)
    ensures inv(states[n])
    decreases n
  {
    if m < n {
      Along(states, turns, step, inv, m, n - 1);
      assert step(states[n - 1], turns[n - 1], states[n]);
    }
  }
}
