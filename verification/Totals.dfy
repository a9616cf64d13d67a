/** Sums over the accounts of a chart. Every report of a book adds one figure per account, in chart
    order; a figure is given here as a function of the account's place in the chart. */
module Totals {

  function SumTo(f: int -> int, n: nat): int {
    if n == 0 then 0 else SumTo(f, n - 1) + f(n - 1)
  }

  function Abs(x: int): nat {
    if x < 0 then -x else x
  }

  function Max0(x: int): nat {
    if x < 0 then 0 else x
  }

  function Min(x: int, y: int): int {
    if x < y then x else y
  }

  lemma {:induction false} SumToEq(f: int -> int, g: int -> int, n: nat)
    requires forall i :: 0 <= i < n ==> f(i) == g(i)
    ensures SumTo(f, n) == SumTo(g, n)
  {
    if n > 0 {
      SumToEq(f, g, n - 1);
    }
  }

  lemma {:induction false} SumToAdd(f: int -> int, g: int -> int, h: int -> int, n: nat)
    requires forall i :: 0 <= i < n ==> h(i) == f(i) + g(i)
    ensures SumTo(h, n) == SumTo(f, n) + SumTo(g, n)
  {
    if n > 0 {
      SumToAdd(f, g, h, n - 1);
    }
  }

  lemma {:induction false} SumToNeg(f: int -> int, g: int -> int, n: nat)
    requires forall i :: 0 <= i < n ==> g(i) == -f(i)
    ensures SumTo(g, n) == -SumTo(f, n)
  {
    if n > 0 {
      SumToNeg(f, g, n - 1);
    }
  }

  /** A column with one figure in it adds up to that figure. */
  lemma {:induction false} SumToPoint(f: int -> int, k: nat, a: int, n: nat)
    requires forall i :: 0 <= i < n ==> f(i) == if i == k then a else 0
    ensures SumTo(f, n) == if k < n then a else 0
  {
    if n > 0 {
      SumToPoint(f, k, a, n - 1);
    }
  }

  lemma {:induction false} SumToZero(f: int -> int, n: nat)
    requires forall i :: 0 <= i < n ==> f(i) == 0
    ensures SumTo(f, n) == 0
  {
    if n > 0 {
      SumToZero(f, n - 1);
    }
  }

  /** A column without a negative figure is nil only when every figure in it is. */
  lemma {:induction false} SumToNonNeg(f: int -> int, n: nat)
    requires forall i :: 0 <= i < n ==> f(i) >= 0
    ensures SumTo(f, n) >= 0
    ensures SumTo(f, n) == 0 <==> forall i :: 0 <= i < n ==> f(i) == 0
  {
    if n > 0 {
      SumToNonNeg(f, n - 1);
    }
  }
}
