/**
  Loops that may throw: `Up` runs a step for indices 0, 1, ..., n-1 and `Down`
  for n-1, ..., 1, 0; both stop at the first failure.  The two induction
  principles are the only place where such loops are reasoned about by
  induction.
 */
module Steps {

  datatype Step<+S, +E> = Next(state: S) | Fail(error: E)

  function Up<S, E>(f: (S, nat) -> Step<S, E>, s: S, n: nat): Step<S, E> {
    if n == 0 then Next(s)
    else
      match Up(f, s, n - 1)
      case Fail(e) => Fail(e)
      case Next(x) => f(x, n - 1)
  }

  function Down<S, E>(f: (S, nat) -> Step<S, E>, s: S, n: nat): Step<S, E>
    decreases n
  {
    if n == 0 then Next(s)
    else
      match f(s, n - 1)
      case Fail(e) => Fail(e)
      case Next(x) => Down(f, x, n - 1)
  }

  /** What every successful step keeps holds of every state on the way up. */
  lemma {:induction false} UpInduction<S(!new), E>(f: (S, nat) -> Step<S, E>, s: S, n: nat, inv: (nat, S) -> bool)
    requires Up(f, s, n).Next?
    requires inv(0, s)
    requires forall i: nat, x: S :: i < n && inv(i, x) && f(x, i).Next? ==> inv(i + 1, f(x, i).state)
    ensures forall i :: 0 <= i <= n ==> Up(f, s, i).Next? && inv(i, Up(f, s, i).state)
  {
    if n == 0 {
    } else {
      UpInduction(f, s, n - 1, inv);
      var x := Up(f, s, n - 1).state;
      assert inv(n - 1 + 1, f(x, n - 1).state);
    }
  }

  /** Every state on the way up is followed by a successful step. */
  lemma {:induction false} UpStep<S, E>(f: (S, nat) -> Step<S, E>, s: S, n: nat, i: nat)
    requires i < n && Up(f, s, n).Next?
    ensures Up(f, s, i).Next? && f(Up(f, s, i).state, i).Next?
  {
    if i == n - 1 {
    } else {
      UpStep(f, s, n - 1, i);
    }
  }

  /** If on the way up each step succeeds just when `ok` says so, the loop does if
      and only if all of them are. */
  lemma {:induction false} UpIff<S, E>(f: (S, nat) -> Step<S, E>, s: S, n: nat, ok: nat -> bool)
    requires forall k: nat :: k < n && Up(f, s, k).Next? ==> (Up(f, s, k + 1).Next? <==> ok(k))
    ensures Up(f, s, n).Next? <==> forall k: nat :: k < n ==> ok(k)
  {
    if n == 0 {
    } else {
      UpIff(f, s, n - 1, ok);
      assert Up(f, s, n - 1).Next? ==> (Up(f, s, n - 1 + 1).Next? <==> ok(n - 1));
    }
  }

  /** A feature of the state that every successful step changes as expected is as
      expected at the end. */
  lemma {:induction false} UpFeature<S(!new), E, T>(f: (S, nat) -> Step<S, E>, s: S, n: nat,
                                                   feature: S -> T, wanted: nat -> T)
    requires Up(f, s, n).Next?
    requires feature(s) == wanted(0)
    requires forall i: nat, x: S ::
               i < n && feature(x) == wanted(i) && f(x, i).Next? ==> feature(f(x, i).state) == wanted(i + 1)
    ensures feature(Up(f, s, n).state) == wanted(n)
  {
    if n == 0 {
    } else {
      UpFeature(f, s, n - 1, feature, wanted);
    }
  }

  /** Likewise on the way down, where the invariant is about what is left. */
  lemma {:induction false} DownInduction<S(!new), E>(f: (S, nat) -> Step<S, E>, s: S, n: nat, inv: (nat, S) -> bool)
    requires inv(n, s)
    requires Down(f, s, n).Next?
    requires forall i: nat, x: S :: i < n && inv(i + 1, x) && f(x, i).Next? ==> inv(i, f(x, i).state)
    ensures inv(0, Down(f, s, n).state)
    decreases n
  {
    if n == 0 {
    } else {
      assert inv(n - 1 + 1, s);
      DownInduction(f, f(s, n - 1).state, n - 1, inv);
    }
  }

  /** The loop down does not stop if no step it takes does. */
  lemma {:induction false} DownSucceeds<S(!new), E>(f: (S, nat) -> Step<S, E>, s: S, n: nat, inv: (nat, S) -> bool)
    requires inv(n, s)
    requires forall i: nat, x: S :: i < n && inv(i + 1, x) ==> f(x, i).Next? && inv(i, f(x, i).state)
    ensures Down(f, s, n).Next?
    ensures inv(0, Down(f, s, n).state)
    decreases n
  {
    if n == 0 {
    } else {
      assert inv(n - 1 + 1, s);
      DownSucceeds(f, f(s, n - 1).state, n - 1, inv);
    }
  }

  /** A failure on the way up is the outcome of every longer loop. */
  lemma {:induction false} UpFails<S, E>(f: (S, nat) -> Step<S, E>, s: S, i: nat, n: nat)
    requires i <= n && Up(f, s, i).Fail?
    ensures Up(f, s, n) == Up(f, s, i)
  {
    if i == n {
    } else {
      UpFails(f, s, i, n - 1);
    }
  }

  lemma {:induction false} UpFailsWith<S(!new), E>(f: (S, nat) -> Step<S, E>, s: S, n: nat, e: E)
    requires forall x: S, i: nat :: f(x, i).Fail? ==> f(x, i).error == e
    requires Up(f, s, n).Fail?
    ensures Up(f, s, n).error == e
  {
    if n > 0 && Up(f, s, n - 1).Fail? { UpFailsWith(f, s, n - 1, e); }
  }
}
