/** Wrap-around index arithmetic over `n` positions, as the note cycler and
    the carousel autoplay write it with `%` on operands that are never
    negative (where JavaScript's `%` and Dafny's agree). */
module Cyclic {

  /** `(i + 1) % n`: one step forwards, from the last position to the first. */
  function Succ(i: nat, n: nat): (j: nat)
    requires n > 0
    ensures j < n
    ensures i < n ==> j == if i == n - 1 then 0 else i + 1
  {
    (i + 1) % n
  }

  /** `(i - 1 + n) % n`: one step backwards, from the first position to the
      last. */
  function Pred(i: nat, n: nat): (j: nat)
    requires n > 0
    ensures j < n
    ensures i < n ==> j == if i == 0 then n - 1 else i - 1
  {
    (i - 1 + n) % n
  }

  /** The two steps undo each other on every position. */
  lemma SuccPredInverse(i: nat, n: nat)
    requires i < n
    ensures Pred(Succ(i, n), n) == i && Succ(Pred(i, n), n) == i
  {
  }

  /** `k` forward steps from `i`. */
  function Advance(i: nat, k: nat, n: nat): (j: nat)
    requires i < n
    ensures j < n
  {
    if k == 0 then i else Succ(Advance(i, k - 1, n), n)
  }

  /** Before the end of the cycle, `k` steps move exactly `k` places. */
  lemma {:induction false} AdvanceNoWrap(i: nat, k: nat, n: nat)
    requires i + k < n
    ensures Advance(i, k, n) == i + k
  {
    if k > 0 {
      AdvanceNoWrap(i, k - 1, n);
    }
  }

  /** Steps compose: `a + b` steps are `a` steps followed by `b` steps. */
  lemma {:induction false} AdvanceCompose(i: nat, a: nat, b: nat, n: nat)
    requires i < n
    ensures Advance(i, a + b, n) == Advance(Advance(i, a, n), b, n)
  {
    if b > 0 {
      AdvanceCompose(i, a, b - 1, n);
    }
  }

  /** From `i`, `n - i` steps reach the first position. */
  lemma AdvanceToStart(i: nat, n: nat)
    requires i < n
    ensures Advance(i, n - i, n) == 0
  {
    AdvanceNoWrap(i, n - 1 - i, n);
    AdvanceCompose(i, n - 1 - i, 1, n);
  }

  /** `n` steps come back to the start, and every position `j` is reached
      from every position `i` in fewer than `n` steps. */
  lemma FullCycle(i: nat, j: nat, n: nat)
    requires i < n && j < n
    ensures Advance(i, n, n) == i
    ensures Advance(i, if j >= i then j - i else n - i + j, n) == j
  {
    AdvanceToStart(i, n);
    AdvanceCompose(i, n - i, i, n);
    AdvanceNoWrap(0, i, n);
    if j >= i {
      AdvanceNoWrap(i, j - i, n);
    } else {
      AdvanceCompose(i, n - i, j, n);
      AdvanceNoWrap(0, j, n);
    }
  }
}
