/** Bitwise operations on natural numbers, one bit at a time.

    The hash functions mix carries with exclusive-or and rotation. Words are kept
    as integers, so that carries are ordinary arithmetic, and the bitwise
    operators are defined by recursion on the number of bits. `Split` is the one
    inductive fact about them: an operator acts on the low and the high part of a
    word separately. */
module Bits {
  import opened Arith

  function Pow2(n: nat): (p: nat)
    ensures p >= 1
  {
    if n == 0 then 1 else 2 * Pow2(n - 1)
  }

  datatype BitOp = And | Or | Xor

  function Bit(op: BitOp, a: nat, b: nat): (r: nat)
    ensures r <= 1
  {
    match op
    case And => if a == 1 && b == 1 then 1 else 0
    case Or => if a == 1 || b == 1 then 1 else 0
    case Xor => if (a == 1) != (b == 1) then 1 else 0
  }

  /** The low `n` bits of `x op y`. */
  function Bitwise(op: BitOp, n: nat, x: nat, y: nat): (r: nat)
    ensures r < Pow2(n)
  {
    if n == 0 then 0 else Bit(op, x % 2, y % 2) + 2 * Bitwise(op, n - 1, x / 2, y / 2)
  }

  lemma {:induction false} Pow2Add(n: nat, m: nat)
    ensures Pow2(n + m) == Pow2(n) * Pow2(m)
  {
    if n == 0 {
    } else {
      Pow2Add(n - 1, m);
      assert Pow2(n + m) == 2 * Pow2(n - 1 + m);
    }
  }

  /** `high` shifted left by `n` bits, with `low` in the freed places. */
  function Join(n: nat, low: nat, high: nat): nat {
    if n == 0 then high else low % 2 + 2 * Join(n - 1, low / 2, high)
  }

  lemma {:induction false} JoinIsSum(n: nat, p: nat, low: nat, high: nat)
    requires p == Pow2(n) && low < p
    ensures Join(n, low, high) == low + p * high
  {
    if n == 0 {
    } else {
      JoinIsSum(n - 1, Pow2(n - 1), low / 2, high);
      MulAssoc(2, Pow2(n - 1), high);
    }
  }

  /** The operators work on disjoint bit ranges independently. */
  lemma {:induction false} Split(op: BitOp, n: nat, m: nat, xl: nat, xh: nat, yl: nat, yh: nat)
    ensures Bitwise(op, n + m, Join(n, xl, xh), Join(n, yl, yh))
         == Join(n, Bitwise(op, n, xl, yl), Bitwise(op, m, xh, yh))
  {
    if n == 0 {
      hide Bitwise;
    } else {
      Split(op, n - 1, m, xl / 2, xh, yl / 2, yh);
      BitwiseBits(op, n + m, Join(n, xl, xh), Join(n, yl, yh));
      BitwiseBits(op, n, xl, yl);
      JoinBits(n, xl, xh);
      JoinBits(n, yl, yh);
      hide Bitwise, Bit, Join;
      JoinBits(n, Bitwise(op, n, xl, yl), Bitwise(op, m, xh, yh));
    }
  }

  lemma BitwiseBits(op: BitOp, n: nat, x: nat, y: nat)
    requires n > 0
    ensures Bitwise(op, n, x, y) % 2 == Bit(op, x % 2, y % 2)
    ensures Bitwise(op, n, x, y) / 2 == Bitwise(op, n - 1, x / 2, y / 2)
  {
  }

  lemma JoinBits(n: nat, low: nat, high: nat)
    requires n > 0
    ensures Join(n, low, high) % 2 == low % 2
    ensures Join(n, low, high) / 2 == Join(n - 1, low / 2, high)
  {
  }

  lemma SplitSum(op: BitOp, n: nat, m: nat, p: nat, xl: nat, xh: nat, yl: nat, yh: nat)
    requires p == Pow2(n) && xl < p && yl < p
    ensures p * xh >= 0 && p * yh >= 0
    ensures Bitwise(op, n + m, xl + p * xh, yl + p * yh)
         == Bitwise(op, n, xl, yl) + p * Bitwise(op, m, xh, yh)
  {
    hide Bitwise;
    MulMono(p, 0, xh);
    MulMono(p, 0, yh);
    Split(op, n, m, xl, xh, yl, yh);
    JoinIsSum(n, p, xl, xh);
    JoinIsSum(n, p, yl, yh);
    JoinIsSum(n, p, Bitwise(op, n, xl, yl), Bitwise(op, m, xh, yh));
  }

  lemma {:induction false} WithZero(n: nat, x: nat)
    requires x < Pow2(n)
    ensures Bitwise(Or, n, x, 0) == Bitwise(Or, n, 0, x) == x
    ensures Bitwise(Xor, n, x, 0) == Bitwise(Xor, n, 0, x) == x
  {
    if n == 0 {
    } else {
      WithZero(n - 1, x / 2);
    }
  }

  lemma {:induction false} XorCancels(n: nat, x: nat, y: nat)
    requires x < Pow2(n)
    ensures Bitwise(Xor, n, Bitwise(Xor, n, x, y), y) == x
    ensures Bitwise(Xor, n, x, x) == 0
  {
    if n == 0 {
    } else {
      XorCancels(n - 1, x / 2, y / 2);
    }
  }

  lemma {:induction false} XorAssociates(n: nat, x: nat, y: nat, z: nat)
    ensures Bitwise(Xor, n, Bitwise(Xor, n, x, y), z) == Bitwise(Xor, n, x, Bitwise(Xor, n, y, z))
  {
    if n == 0 {
    } else {
      XorAssociates(n - 1, x / 2, y / 2, z / 2);
    }
  }

  lemma {:induction false} Commutes(op: BitOp, n: nat, x: nat, y: nat)
    ensures Bitwise(op, n, x, y) == Bitwise(op, n, y, x)
  {
    if n == 0 {
    } else {
      Commutes(op, n - 1, x / 2, y / 2);
    }
  }

  /** Joining a low part with a shifted high part by `or` is addition. */
  lemma OrOfDisjoint(n: nat, m: nat, p: nat, low: nat, high: nat)
    requires p == Pow2(n) && low < p && high < Pow2(m)
    ensures p * high >= 0
    ensures Bitwise(Or, n + m, low, p * high) == low + p * high
    ensures Bitwise(Or, n + m, p * high, low) == low + p * high
  {
    hide Bitwise;
    MulMono(p, 0, high);
    Split(Or, n, m, low, 0, 0, high);
    WithZero(n, low);
    WithZero(m, high);
    JoinIsSum(n, p, low, 0);
    JoinIsSum(n, p, 0, high);
    JoinIsSum(n, p, low, high);
    Commutes(Or, n + m, low, p * high);
  }

  lemma {:induction false} AndOnes(n: nat, x: nat)
    requires x < Pow2(n)
    ensures Bitwise(And, n, x, Pow2(n) - 1) == x
  {
    if n == 0 {
    } else {
      AndOnes(n - 1, x / 2);
      assert (Pow2(n) - 1) % 2 == 1 && (Pow2(n) - 1) / 2 == Pow2(n - 1) - 1;
    }
  }

  /** Masking with `n` ones takes the remainder modulo `2^n`. */
  lemma AndMask(n: nat, m: nat, p: nat, x: nat)
    requires p == Pow2(n)
    ensures Bitwise(And, n + m, x, p - 1) == x % p
  {
    hide Bitwise;
    var l, h := x % p, x / p;
    Euclid(x, p);
    Split(And, n, m, l, h, p - 1, 0);
    AndOnes(n, l);
    HighBitsFree(m, h);
    JoinIsSum(n, p, l, h);
    JoinIsSum(n, p, p - 1, 0);
    JoinIsSum(n, p, l, 0);
  }

  lemma {:induction false} HighBitsFree(n: nat, x: nat)
    ensures Bitwise(And, n, x, 0) == 0
  {
    if n == 0 {
    } else {
      HighBitsFree(n - 1, x / 2);
    }
  }

  // Shifts are iterated halving and doubling, so that a shift by a known amount
  // never turns into a product of two unknowns.

  function ShiftRight(x: nat, n: nat): (r: nat)
    ensures r <= x
  {
    if n == 0 then x else ShiftRight(x, n - 1) / 2
  }

  /** Shift left within words below `m`, dropping what overflows. */
  function ShiftLeft(m: nat, x: nat, n: nat): (r: nat)
    requires m > 0
    ensures r < m
  {
    if n == 0 then x % m else 2 * ShiftLeft(m, x, n - 1) % m
  }

  lemma {:induction false} ShiftRightDivides(x: nat, n: nat, p: nat)
    requires p == Pow2(n)
    ensures ShiftRight(x, n) == x / p
  {
    if n == 0 {
    } else {
      var q := Pow2(n - 1);
      ShiftRightDivides(x, n - 1, q);
      var d, e := x / q, x / q / 2;
      Euclid(x, q);
      Euclid(d, 2);
      MulDist(q, d % 2, 2 * e);
      MulAssoc(q, 2, e);
      MulMono(q, d % 2, 1);
      MulMono(q, 0, d % 2);
      DivModUnique(x, e, x % q + q * (d % 2), p);
    }
  }

  lemma {:induction false} ShiftLeftMultiplies(m: nat, x: nat, n: nat, p: nat)
    requires m > 0 && p == Pow2(n)
    ensures x * p >= 0 && ShiftLeft(m, x, n) == x * p % m
  {
    MulMono(x, 0, p);
    if n == 0 {
    } else {
      var q := Pow2(n - 1);
      MulMono(x, 0, q);
      ShiftLeftMultiplies(m, x, n - 1, q);
      ModMul(x * q, 2, m);
      MulAssoc(x, q, 2);
    }
  }
}
