/** Products and rounded-up quotients of naturals. */
module Multiples {

  /** n units of the given size, as a name the solver keeps apart from arithmetic. */
  function Scale(n: nat, rate: nat): nat { n * rate }

  lemma ScaleAssoc(a: nat, b: nat, c: nat)
    ensures Scale(Scale(a, b), c) == Scale(a, Scale(b, c))
  {
  }

  lemma ScaleLe(a: nat, b: nat, c: nat)
    requires a <= b
    ensures Scale(a, c) <= Scale(b, c)
  {
  }

  lemma ScaleAdd(a: nat, b: nat, c: nat)
    ensures Scale(a + b, c) == Scale(a, c) + Scale(b, c)
  {
  }

  lemma ScaleOne(a: nat)
    ensures Scale(a, 1) == a && Scale(1, a) == a && Scale(0, a) == 0
  {
  }

  function CeilDiv(a: nat, b: nat): nat
    requires b >= 1
  {
    (a + b - 1) / b
  }

  /** Slot of row k, column t in a row-major buffer with rows of T. */
  function Cell(T: nat, k: nat, t: nat): nat { Scale(k, T) + t }

  lemma CellsDiffer(T: nat, K: nat, k: nat, t: nat, j: nat, s: nat)
    requires k < K && j < K && t < T && s < T
    ensures Cell(T, k, t) < Scale(K, T)
    ensures Cell(T, k, t) == Cell(T, j, s) ==> k == j && t == s
  {
    hide Scale;
    ScaleGap(T, k, K);
    if k < j { ScaleGap(T, k, j); }
    if j < k { ScaleGap(T, j, k); }
  }

  lemma ScaleGap(T: nat, k: nat, j: nat)
    requires k < j
    ensures Scale(k, T) + T <= Scale(j, T)
  {
    ScaleAdd(k, 1, T);
    ScaleOne(T);
    hide Scale;
    ScaleLe(k + 1, j, T);
  }

  lemma CellAt(T: nat, K: nat, i: nat) returns (k: nat, t: nat)
    requires i < Scale(K, T)
    ensures k < K && t < T && Cell(T, k, t) == i
  {
    if K == 0 {
      ScaleOne(T);
    } else {
      ScaleAdd(K - 1, 1, T);
      ScaleOne(T);
      if i >= Scale(K - 1, T) {
        k, t := K - 1, i - Scale(K - 1, T);
      } else {
        k, t := CellAt(T, K - 1, i);
      }
    }
  }
}
