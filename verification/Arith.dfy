/** The few nonlinear facts that the layout and index proofs share. */
module Arith {

  function Pow(b: nat, e: nat): (r: nat)
    ensures b > 0 ==> r > 0
  {
    if e == 0 then 1 else b * Pow(b, e - 1)
  }

  /** Multiplication, defined by repeated addition so that proofs about layout stay linear. */
  function Times(n: nat, m: nat): nat {
    if n == 0 then 0 else Times(n - 1, m) + m
  }

  lemma {:induction false} TimesIsMul(n: nat, m: nat)
    ensures Times(n, m) == n * m
  {
    if n > 0 {
      TimesIsMul(n - 1, m);
    }
  }

  lemma {:induction false} TimesSum(a: nat, b: nat, m: nat)
    ensures Times(a + b, m) == Times(a, m) + Times(b, m)
  {
    if b > 0 {
      TimesSum(a, b - 1, m);
    }
  }

  lemma {:induction false} TimesMore(n: nat, m: nat)
    requires m > 0
    ensures Times(n, m) >= n
  {
    if n > 0 {
      TimesMore(n - 1, m);
    }
  }

  /** Cells of width `m` follow one another. */
  lemma TimesApart(a: nat, b: nat, m: nat)
    requires a < b
    ensures Times(a, m) + m <= Times(b, m)
  {
    TimesSum(a + 1, b - a - 1, m);
  }

  lemma MulLe(a: nat, b: nat, m: nat)
    requires a <= b
    ensures a * m <= b * m
  {
  }

  /** Cells of width `m` do not overlap. */
  lemma CellsApart(a: nat, b: nat, m: nat)
    requires a < b
    ensures a * m + m <= b * m
  {
    MulLe(a + 1, b, m);
  }

  /** A number lies in exactly one cell of width `m`. */
  lemma SameCell(a: nat, b: nat, m: nat, x: nat)
    requires a * m <= x < a * m + m
    requires b * m <= x < b * m + m
    ensures a == b
  {
    if a < b {
      CellsApart(a, b, m);
    } else if b < a {
      CellsApart(b, a, m);
    }
  }

  lemma DivMod(x: nat, m: nat)
    requires m > 0
    ensures x / m * m + x % m == x && x % m < m
  {
  }

  /** Quotient and remainder are determined by cell and offset. */
  lemma DivUnique(a: nat, r: nat, m: nat)
    requires r < m
    ensures (a * m + r) / m == a && (a * m + r) % m == r
  {
    var x := a * m + r;
    DivMod(x, m);
    SameCell(x / m, a, m, x);
  }

  /** A product below `b * m` has its quotient below `b`. */
  lemma DivBelow(x: nat, b: nat, m: nat)
    requires m > 0 && x < b * m
    ensures x / m < b
  {
    DivMod(x, m);
    if x / m >= b {
      MulLe(b, x / m, m);
    }
  }
}
