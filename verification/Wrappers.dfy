/** Small vocabulary shared by the models. */
module Wrappers {
  /** Python's `X | None`. */
  datatype Option<+T> = None | Some(value: T)

  /** A loop over `s` takes in one more element. */
  lemma PrefixStep<T>(s: seq<T>, i: nat)
    requires i < |s|
    ensures s[..i + 1] == s[..i] + [s[i]]
  {
  }

  lemma PrefixAll<T>(s: seq<T>)
    ensures s[..|s|] == s
  {
  }

  /** What `n` steps of a machine lead to. */
  function Iterate<S, E>(step: (S, E) -> S, start: S, events: nat -> E, n: nat): S {
    if n == 0 then start else step(Iterate(step, start, events, n - 1), events(n - 1))
  }

  /** What every step keeps holds from the moment it holds. */
  lemma {:induction false} InvariantHolds<S(!new), E(!new)>(inv: S -> bool, step: (S, E) -> S, start: S,
                                                            events: nat -> E, k: nat, n: nat)
    requires k <= n && inv(Iterate(step, start, events, k))
    requires forall s, e :: inv(s) ==> inv(step(s, e))
    ensures inv(Iterate(step, start, events, n))
  {
    if k < n {
      InvariantHolds(inv, step, start, events, k, n - 1);
    }
  }
}
