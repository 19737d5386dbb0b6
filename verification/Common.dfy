/** Small datatypes and sequence facts shared by the other modules. */
module Common {

  datatype Option<+T> = None | Some(value: T)

  datatype Result<+T, +E> = Ok(value: T) | Err(error: E)

  /** `states` is a run of the transition relation `link` under the operations `ops`. */
  ghost predicate Chain<S(!new), O(!new)>(link: (S, O, S) -> bool, states: seq<S>, ops: seq<O>) {
    && |states| == |ops| + 1
    && forall i :: 0 <= i < |ops| ==> link(states[i], ops[i], states[i + 1])
  }

  /** What the first state has and every transition keeps, every state has. */
  lemma {:induction false} ChainInvariant<S(!new), O(!new)>(
      link: (S, O, S) -> bool, inv: S -> bool, states: seq<S>, ops: seq<O>, i: nat)
    requires Chain(link, states, ops) && i <= |ops| && inv(states[0])
    requires forall s, o, t :: link(s, o, t) && inv(s) ==> inv(t)
    ensures inv(states[i])
  {
    if i > 0 {
      ChainInvariant(link, inv, states, ops, i - 1);
      assert link(states[i - 1], ops[i - 1], states[i - 1 + 1]);
    }
  }

  /** If a property can be lost in a step only by a flaw, and is lost by every flaw, it holds up to a
      point exactly when no flaw came before. */
  lemma {:induction false} KeptUnlessFlawed<S(!new), O(!new)>(
      good: S -> bool, flaw: (S, O) -> bool, states: seq<S>, ops: seq<O>, n: nat)
    requires n <= |ops| < |states| && good(states[0])
    requires forall i :: 0 <= i < n && good(states[i]) ==> (good(states[i + 1]) <==> !flaw(states[i], ops[i]))
    ensures (forall i :: 0 <= i <= n ==> good(states[i])) <==> (forall i :: 0 <= i < n ==> !flaw(states[i], ops[i]))
  {
    if n > 0 {
      KeptUnlessFlawed(good, flaw, states, ops, n - 1);
      assert good(states[n - 1]) ==> (good(states[n - 1 + 1]) <==> !flaw(states[n - 1], ops[n - 1]));
    }
  }

  lemma ChainLink<S(!new), O(!new)>(link: (S, O, S) -> bool, states: seq<S>, ops: seq<O>, i: nat)
    requires Chain(link, states, ops) && i < |ops|
    ensures link(states[i], ops[i], states[i + 1])
  {
  }

  /** The last n elements, or all of a shorter sequence: what a bounded deque keeps. */
  function Last<T>(n: nat, s: seq<T>): seq<T> { if |s| <= n then s else s[|s| - n..] }

  lemma LastOfLast<T>(n: nat, a: seq<T>, b: seq<T>)
    ensures Last(n, Last(n, a) + b) == Last(n, a + b)
  {
  }
}
