/** The optional value used wherever the program uses Rust's `Option`, and what several modules share. */
module Wrappers {
  datatype Option<+T> = None | Some(value: T)

  /** A result, or the panic that takes its place. */
  datatype Outcome<+T> = Done(value: T) | Panicked

  /** The kinds of numbers a metric can hold. */
  datatype NumberKind = CounterKind | IntegerKind | FloatKind

  function Least(a: nat, b: nat): nat {
    if a < b then a else b
  }

  /** One element taken off both sides. */
  lemma Cancel<T>(x: multiset<T>, y: multiset<T>, t: T)
    requires x + multiset{t} == y + multiset{t}
    ensures x == y
  {
    forall u ensures x[u] == y[u] {
      assert (x + multiset{t})[u] == (y + multiset{t})[u];
    }
  }
}
