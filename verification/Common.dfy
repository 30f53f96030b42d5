/** Small shared vocabulary: optional values, results, and sums over issued identifiers. */
module Common {

  datatype Option<+T> = None | Some(value: T)

  datatype Result<+T, +E> = Ok(value: T) | Err(error: E)

  function Max(a: int, b: int): int {
    if a < b then b else a
  }

  function Min(a: int, b: int): int {
    if a < b then a else b
  }

  /** The aggregate a SQL `sum` computes when identifiers are the numbers below `n`. */
  function Sum(f: nat -> int, n: nat): int {
    if n == 0 then 0 else Sum(f, n - 1) + f(n - 1)
  }

  lemma {:induction false} SumCongruent(f: nat -> int, g: nat -> int, n: nat)
    requires forall i: nat | i < n :: f(i) == g(i)
    ensures Sum(f, n) == Sum(g, n)
  {
    if n > 0 {
      SumCongruent(f, g, n - 1);
    }
  }

  /** Changing one summand moves the total by exactly the difference. */
  lemma {:induction false} SumUpdate(f: nat -> int, g: nat -> int, n: nat, k: nat)
    requires k < n
    requires forall i: nat | i < n && i != k :: f(i) == g(i)
    ensures Sum(g, n) == Sum(f, n) - f(k) + g(k)
  {
    if k == n - 1 {
      SumCongruent(f, g, n - 1);
    } else {
      SumUpdate(f, g, n - 1, k);
    }
  }

  /** Growing the identifier range past summands that are zero changes nothing. */
  lemma {:induction false} SumExtend(f: nat -> int, n: nat, m: nat)
    requires n <= m
    requires forall i: nat | n <= i < m :: f(i) == 0
    ensures Sum(f, m) == Sum(f, n)
  {
    if n < m {
      SumExtend(f, n, m - 1);
    }
  }

  lemma {:induction false} SumNonNegative(f: nat -> int, n: nat)
    requires forall i: nat | i < n :: 0 <= f(i)
    ensures 0 <= Sum(f, n)
  {
    if n > 0 {
      SumNonNegative(f, n - 1);
    }
  }

  lemma {:induction false} SumAdd(f: nat -> int, g: nat -> int, h: nat -> int, n: nat)
    requires forall i: nat | i < n :: h(i) == f(i) + g(i)
    ensures Sum(h, n) == Sum(f, n) + Sum(g, n)
  {
    if n > 0 {
      SumAdd(f, g, h, n - 1);
    }
  }

  lemma SubsetCard<T>(a: set<T>, b: set<T>)
    requires a <= b
    ensures |a| <= |b|
  {
    assert b == a + (b - a);
  }

  lemma Associate<T>(a: seq<T>, b: seq<T>, c: seq<T>)
    ensures (a + b) + c == a + (b + c)
  {
  }
}
