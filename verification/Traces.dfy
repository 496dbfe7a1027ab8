/** Runs as sequences of states, each reached from the one before by a single step. */
module Traces {

  /** `trail` ends in `last`, every state in it is good, and neighbours are one step apart. */
  ghost predicate Trace<T(!new)>(step: (T, T) -> bool, good: T -> bool, trail: seq<T>, last: T) {
    && trail != [] && trail[|trail| - 1] == last
    && (forall i :: 0 <= i < |trail| ==> GoodAt(good, trail, i))
    && Chained(step, trail)
  }

  ghost predicate GoodAt<T(!new)>(good: T -> bool, trail: seq<T>, i: nat)
    requires i < |trail|
  {
    good(trail[i])
  }

  ghost predicate Chained<T(!new)>(step: (T, T) -> bool, trail: seq<T>) {
    forall i :: 0 < i < |trail| ==> Linked(step, trail, i)
  }

  ghost predicate Linked<T(!new)>(step: (T, T) -> bool, trail: seq<T>, i: nat)
    requires 0 < i < |trail|
  {
    step(trail[i - 1], trail[i])
  }

  lemma TraceGrows<T(!new)>(step: (T, T) -> bool, good: T -> bool, trail: seq<T>, last: T, next: T)
    requires Trace(step, good, trail, last) && step(last, next) && good(next)
    ensures Trace(step, good, trail + [next], next) && trail <= trail + [next]
  {
    var longer := trail + [next];
    forall i | 0 <= i < |longer| ensures GoodAt(good, longer, i) {
      if i < |trail| { assert GoodAt(good, trail, i); }
    }
    forall i | 0 < i < |longer| ensures Linked(step, longer, i) {
      if i < |trail| {
        assert Linked(step, trail, i);
      } else {
        assert longer[i - 1] == last;
      }
    }
  }

  /** What every step keeps or lets grow, the whole run does. */
  lemma {:induction false} AlongTrace<T(!new)>(step: (T, T) -> bool, r: (T, T) -> bool, trail: seq<T>, i: nat, j: nat)
    requires Chained(step, trail) && i <= j < |trail|
    requires forall x :: r(x, x)
    requires forall x, y, z :: r(x, y) && step(y, z) ==> r(x, z)
    ensures r(trail[i], trail[j])
    decreases j
  {
    if i < j {
      AlongTrace(step, r, trail, i, j - 1);
      assert Linked(step, trail, j);
    }
  }
}
