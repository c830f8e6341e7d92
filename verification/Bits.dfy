/** Python's bitwise operators on integers: shifts, `|` and `&` in two's complement of any width. */
module Bits {

  function Pow2(k: nat): (p: nat)
    ensures p >= 1
  {
    if k == 0 then 1 else 2 * Pow2(k - 1)
  }

  function ShiftLeft(x: int, k: nat): int { if k == 0 then x else 2 * ShiftLeft(x, k - 1) }

  function ShiftRight(x: int, k: nat): int
    decreases k
  {
    if k == 0 then x else ShiftRight(x / 2, k - 1)
  }

  /** Halving a number, rounding down, brings it to 0 or -1, whose bits are all equal. */
  function Size(x: int): nat { if x >= 0 then x else -1 - x }

  function Or(a: int, b: int): int
    decreases Size(a) + Size(b)
  {
    if Size(a) == 0 && Size(b) == 0 then (if a == -1 || b == -1 then -1 else 0)
    else 2 * Or(a / 2, b / 2) + if a % 2 == 1 || b % 2 == 1 then 1 else 0
  }

  function And(a: int, b: int): int
    decreases Size(a) + Size(b)
  {
    if Size(a) == 0 && Size(b) == 0 then (if a == -1 && b == -1 then -1 else 0)
    else 2 * And(a / 2, b / 2) + if a % 2 == 1 && b % 2 == 1 then 1 else 0
  }

  /** The `k` lowest bits. */
  function Low(x: int, k: nat): (r: nat)
    ensures r < Pow2(k)
    decreases k
  {
    if k == 0 then 0 else 2 * Low(x / 2, k - 1) + x % 2
  }

  lemma {:induction false} LowIsRemainder(x: nat, k: nat)
    ensures Low(x, k) == x % Pow2(k)
  {
    if k > 0 {
      LowIsRemainder(x / 2, k - 1);
      TwiceRemainder(x, Pow2(k - 1));
    }
  }

  lemma TwiceRemainder(x: nat, p: nat)
    requires p > 0
    ensures x % (2 * p) == 2 * (x / 2 % p) + x % 2
  {
    var h := x / 2;
    assert h == p * (h / p) + h % p && 0 <= h % p < p && h / p >= 0;
    assert 2 * p * (h / p) == 2 * (p * (h / p));
    Remainder(x, 2 * p, h / p, 2 * (h % p) + x % 2);
  }

  lemma Remainder(x: nat, m: nat, q: nat, r: nat)
    requires m > 0 && r < m && x == m * q + r
    ensures x % m == r
  {
    var d := q - x / m;
    assert m * d == m * q - m * (x / m);
    ProductAtLeast(m, d);
  }

  lemma ProductAtLeast(m: int, d: int)
    requires m > 0
    ensures d >= 1 ==> m * d >= m
    ensures d <= -1 ==> m * d <= -m
  {
  }

  lemma {:induction false} OrZero(a: int)
    ensures Or(a, 0) == a
    decreases Size(a)
  {
    if Size(a) > 0 { OrZero(a / 2); }
  }

  /** Fields that do not overlap can be joined by `|` as well as by `+`. */
  lemma {:induction false} OrIsSum(a: int, b: nat, k: nat)
    requires b < Pow2(k)
    ensures Or(ShiftLeft(a, k), b) == ShiftLeft(a, k) + b
  {
    if k == 0 {
      OrZero(a);
    } else {
      OrIsSum(a, b / 2, k - 1);
    }
  }

  /** A mask of `k` ones keeps the `k` lowest bits. */
  lemma {:induction false} AndMask(x: nat, k: nat)
    ensures And(x, Pow2(k) - 1) == Low(x, k)
  {
    if k == 0 {
      AndZero(x);
    } else {
      AndMask(x / 2, k - 1);
    }
  }

  lemma {:induction false} AndZero(x: nat)
    ensures And(x, 0) == 0
  {
    if x > 0 { AndZero(x / 2); }
  }

  lemma {:induction false} LowOfPow2(k: nat)
    ensures Low(Pow2(k), k) == 0
  {
    if k > 0 { LowOfPow2(k - 1); }
  }

  lemma {:induction false} LowOfSmall(x: nat, k: nat)
    requires x < Pow2(k)
    ensures Low(x, k) == x
  {
    if k > 0 { LowOfSmall(x / 2, k - 1); }
  }

  /** A lower field below a shifted one: both can be read back. */
  lemma {:induction false} FieldsOfSum(x: int, q: nat, k: nat)
    requires q < Pow2(k)
    ensures ShiftRight(ShiftLeft(x, k) + q, k) == x && Low(ShiftLeft(x, k) + q, k) == q
  {
    if k > 0 { FieldsOfSum(x, q / 2, k - 1); }
  }

  /** The higher field decides. */
  lemma {:induction false} Carry(x: int, q: nat, x': int, q': nat, k: nat)
    requires x < x' && q < Pow2(k)
    ensures ShiftLeft(x, k) + q < ShiftLeft(x', k) + q'
  {
    if k > 0 { Carry(x, q / 2, x', q' / 2, k - 1); }
  }

  lemma {:induction false} ShiftOfSum(x: int, y: int, j: nat, k: nat)
    ensures ShiftLeft(ShiftLeft(x, j) + y, k) == ShiftLeft(x, j + k) + ShiftLeft(y, k)
  {
    if k > 0 { ShiftOfSum(x, y, j, k - 1); }
  }

  lemma {:induction false} ShiftOfPow2(j: nat, k: nat)
    ensures ShiftLeft(Pow2(j), k) == Pow2(j + k) && ShiftLeft(0, k) == 0
  {
    if k > 0 { ShiftOfPow2(j, k - 1); }
  }

  /** The sum is within `j + k` bits exactly when the higher field is within `j`. */
  lemma SumFitsIff(x: int, q: nat, j: nat, k: nat)
    requires q < Pow2(k)
    ensures ShiftLeft(x, k) + q >= 0 <==> x >= 0
    ensures ShiftLeft(x, k) + q < Pow2(j + k) <==> x < Pow2(j)
  {
    ShiftOfPow2(j, k);
    if x < 0 { Carry(x, q, 0, 0, k); } else if x > 0 { Carry(0, 0, x, q, k); }
    if x < Pow2(j) { Carry(x, q, Pow2(j), 0, k); } else if x > Pow2(j) { Carry(Pow2(j), 0, x, q, k); }
  }

  lemma {:induction false} Pow2Sum(j: nat, k: nat)
    ensures Pow2(j + k) == Pow2(j) * Pow2(k)
  {
    if j > 0 { Pow2Sum(j - 1, k); }
  }

  lemma Powers()
    ensures Pow2(10) == 1024 && Pow2(12) == 4096 && Pow2(41) == 0x200_0000_0000 && Pow2(63) == 0x8000_0000_0000_0000
  {
    assert Pow2(10) == 1024 && Pow2(1) == 2 && Pow2(2) == 4;
    Pow2Sum(10, 2);
    Pow2Sum(10, 10);
    Pow2Sum(20, 1);
    Pow2Sum(20, 21);
    Pow2Sum(12, 10);
    Pow2Sum(22, 41);
  }
}
