/** Division, remainder and powers, for bases that are not literals. */
module Arithmetic {

  /** The bases numerals are written in. */
  type base = b: nat | b == 2 || b == 10 || b == 16 witness 2

  // Scale, Quotient and Last multiply and divide by a base, one literal at a time, which
  // keeps the arithmetic linear.

  function Scale(b: base, n: nat): nat {
    if b == 2 then n * 2 else if b == 10 then n * 10 else n * 16
  }

  function Quotient(b: base, n: nat): (q: nat)
    ensures n < b ==> q == 0
    ensures b <= n ==> q < n
  {
    if b == 2 then n / 2 else if b == 10 then n / 10 else n / 16
  }

  function Last(b: base, n: nat): (d: nat)
    ensures d < b
    ensures n == Scale(b, Quotient(b, n)) + d
  {
    if b == 2 then n % 2 else if b == 10 then n % 10 else n % 16
  }

  function Pow(b: base, k: nat): (p: nat)
    ensures 1 <= p
  {
    if k == 0 then 1 else Scale(b, Pow(b, k - 1))
  }

  /** n * b^k */
  function Raise(b: base, n: nat, k: nat): nat {
    if k == 0 then n else Scale(b, Raise(b, n, k - 1))
  }

  /** n / b^k: the digits of n from position k up. */
  function High(b: base, n: nat, k: nat): nat {
    if k == 0 then n else High(b, Quotient(b, n), k - 1)
  }

  /** n % b^k: the digits of n below position k. */
  function Low(b: base, n: nat, k: nat): (r: nat)
    ensures r < Pow(b, k)
  {
    if k == 0 then 0 else Scale(b, Low(b, Quotient(b, n), k - 1)) + Last(b, n)
  }

  lemma MulMonotone(m: nat, x: int, y: int)
    requires x <= y
    ensures m * x <= m * y
  {
  }

  lemma MulGap(m: nat, x: int, y: int)
    requires x < y
    ensures m * x + m <= m * y
  {
    MulMonotone(m, x + 1, y);
    assert m * (x + 1) == m * x + m;
  }

  lemma DivMod(n: int, m: nat)
    requires 0 < m
    ensures n == m * (n / m) + n % m && 0 <= n % m < m
  {
  }

  lemma QuotientUnique(n: int, m: nat, q: int, r: nat)
    requires r < m && n == m * q + r
    ensures n / m == q && n % m == r
  {
    var x := n / m;
    DivMod(n, m);
    if x < q {
      MulGap(m, x, q);
      assert false;
    } else if q < x {
      MulGap(m, q, x);
      assert false;
    }
  }

  lemma {:induction false} PowMonotone(b: base, j: nat, k: nat)
    requires j <= k
    ensures Pow(b, j) <= Pow(b, k)
  {
    if j < k {
      PowMonotone(b, j, k - 1);
    }
  }

  lemma {:induction false} PowAdd(b: base, j: nat, k: nat)
    ensures Pow(b, j + k) == Pow(b, j) * Pow(b, k)
  {
    hide Scale;
    if k != 0 {
      PowAdd(b, j, k - 1);
      ScaleMul(b, Pow(b, j), Pow(b, k - 1));
      assert j + k - 1 == j + (k - 1);
    }
  }

  lemma ScaleMul(b: base, x: nat, y: nat)
    ensures x * Scale(b, y) == Scale(b, x * y)
  {
  }

  lemma {:induction false} RaiseMul(b: base, n: nat, k: nat)
    ensures Raise(b, n, k) == n * Pow(b, k)
  {
    if k != 0 {
      RaiseMul(b, n, k - 1);
    }
  }

  lemma ScaleAdd(b: base, x: nat, y: nat)
    ensures Scale(b, x + y) == Scale(b, x) + Scale(b, y)
  {
  }

  lemma ScaleUnique(b: base, q: nat, d: nat)
    requires d < b
    ensures Quotient(b, Scale(b, q) + d) == q && Last(b, Scale(b, q) + d) == d
  {
  }

  lemma {:induction false} SplitAt(b: base, n: nat, k: nat)
    ensures n == Raise(b, High(b, n, k), k) + Low(b, n, k)
  {
    hide Scale, Quotient, Last;
    if k != 0 {
      var q := Quotient(b, n);
      SplitAt(b, q, k - 1);
      ScaleAdd(b, Raise(b, High(b, q, k - 1), k - 1), Low(b, q, k - 1));
    }
  }

  lemma {:induction false} HighLow(b: base, n: nat, k: nat)
    ensures High(b, n, k) == n / Pow(b, k) && Low(b, n, k) == n % Pow(b, k)
  {
    hide *;
    SplitAt(b, n, k);
    RaiseMul(b, High(b, n, k), k);
    QuotientUnique(n, Pow(b, k), High(b, n, k), Low(b, n, k));
  }

  lemma {:induction false} RaiseHighLow(b: base, hi: nat, lo: nat, k: nat)
    requires lo < Pow(b, k)
    ensures High(b, Raise(b, hi, k) + lo, k) == hi && Low(b, Raise(b, hi, k) + lo, k) == lo
  {
    var n := Raise(b, hi, k) + lo;
    HighLow(b, n, k);
    RaiseMul(b, hi, k);
    QuotientUnique(n, Pow(b, k), hi, lo);
  }

  lemma {:induction false} LowSmall(b: base, n: nat, k: nat)
    requires n < Pow(b, k)
    ensures Low(b, n, k) == n && High(b, n, k) == 0
  {
    if k != 0 {
      LowSmall(b, Quotient(b, n), k - 1);
    }
  }

  lemma PowersOfSixteen()
    ensures Pow(16, 0) == 1 && Pow(16, 2) == 256 && Pow(16, 4) == 65536
    ensures Pow(16, 6) == 0x100_0000 && Pow(16, 8) == 0x1_0000_0000
  {
    assert Pow(16, 4) == 65536;
    assert Pow(16, 6) == 0x100_0000;
  }
}
