/** Repeating a step. */
module Iteration {

  function Iterate<T>(f: T -> T, x: T, k: nat): T
  {
    if k == 0 then x else f(Iterate(f, x, k - 1))
  }

  lemma {:induction false} Compose<T>(f: T -> T, x: T, j: nat, k: nat)
    ensures Iterate(f, Iterate(f, x, j), k) == Iterate(f, x, j + k)
  {
    if k > 0 {
      Compose(f, x, j, k - 1);
    }
  }

  lemma {:induction false} ComposeTo<T>(f: T -> T, x: T, y: T, j: nat, k: nat, n: nat)
    requires y == Iterate(f, x, j) && n == j + k
    ensures Iterate(f, y, k) == Iterate(f, x, n)
  {
    Compose(f, x, j, k);
  }

  ghost predicate KeepsAt<T>(f: T -> T, x: T, p: T -> bool, i: nat)
  {
    p(Iterate(f, x, i)) ==> p(f(Iterate(f, x, i)))
  }

  /** What every step on the way keeps holds at the end. */
  lemma {:induction false} Kept<T>(f: T -> T, x: T, p: T -> bool, k: nat)
    requires p(x) && forall i {:trigger KeepsAt(f, x, p, i)} :: 0 <= i < k ==> KeepsAt(f, x, p, i)
    ensures p(Iterate(f, x, k))
  {
    if k > 0 {
      Kept(f, x, p, k - 1);
      assert KeepsAt(f, x, p, k - 1);
    }
  }

  /** Two steps that agree wherever the first one leads have the same runs. */
  lemma {:induction false} SameRun<T>(f: T -> T, g: T -> T, x: T, n: nat)
    requires forall i {:trigger Iterate(f, x, i)} :: 0 <= i < n ==> f(Iterate(f, x, i)) == g(Iterate(f, x, i))
    ensures Iterate(f, x, n) == Iterate(g, x, n)
  {
    if n > 0 {
      SameRun(f, g, x, n - 1);
    }
  }

  /** Once a step changes nothing, no later one does. */
  lemma {:induction false} Settled<T>(f: T -> T, x: T, j: nat, k: nat)
    requires j <= k && f(Iterate(f, x, j)) == Iterate(f, x, j)
    ensures Iterate(f, x, k) == Iterate(f, x, j)
  {
    if j < k {
      Settled(f, x, j, k - 1);
    }
  }

  /** The states passed through in `k` steps. */
  function States<T>(f: T -> T, x: T, k: nat): (xs: seq<T>)
    ensures |xs| == k + 1 && xs[0] == x
  {
    if k == 0 then [x] else States(f, x, k - 1) + [f(States(f, x, k - 1)[k - 1])]
  }

  lemma {:induction false} StatesStep<T>(f: T -> T, x: T, k: nat, i: nat)
    requires i < k
    ensures States(f, x, k)[i + 1] == f(States(f, x, k)[i])
  {
    if i + 1 < k {
      StatesStep(f, x, k - 1, i);
    }
  }

  lemma {:induction false} StatesAre<T>(f: T -> T, x: T, k: nat, i: nat)
    requires i <= k
    ensures States(f, x, k)[i] == Iterate(f, x, i)
  {
    if i > 0 {
      StatesStep(f, x, k, i - 1);
      StatesAre(f, x, k, i - 1);
    }
  }
}
