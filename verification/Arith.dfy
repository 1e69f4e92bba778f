/** Small facts of multiplication and remainder, each stated once so that no
    larger proof mixes products of variables with division. */
module Arith {

  lemma MulAssoc(a: int, b: int, c: int)
    ensures (a * b) * c == a * (b * c)
  {
  }

  lemma MulComm(a: int, b: int)
    ensures a * b == b * a
  {
  }

  lemma MulDist(a: int, b: int, c: int)
    ensures a * (b + c) == a * b + a * c
    ensures a * (b - c) == a * b - a * c
  {
  }

  lemma MulMono(a: nat, b: int, c: int)
    requires b <= c
    ensures a * b <= a * c
  {
  }

  lemma Euclid(x: int, m: nat)
    requires m > 0
    ensures x == x % m + m * (x / m) && 0 <= x % m < m
    ensures x >= 0 ==> x / m >= 0
  {
  }

  /** Quotient and remainder are unique. */
  lemma DivModUnique(x: int, q: int, r: nat, m: nat)
    requires r < m && x == r + m * q
    ensures x / m == q && x % m == r
  {
    var d := x / m;
    Euclid(x, m);
    MulDist(m, d, q);
    if d > q {
      MulMono(m, 1, d - q);
    } else if d < q {
      MulMono(m, 1, q - d);
      MulDist(m, q, d);
    }
  }

  lemma ModShift(r: nat, q: nat, m: nat)
    requires m > 0
    ensures (r + m * q) % m == r % m
  {
    MulMono(m, 0, q);
    Euclid(r, m);
    MulDist(m, r / m, q);
    MulMono(m, 0, r / m + q);
    DivModUnique(r + m * q, r / m + q, r % m, m);
  }

  lemma ModAdd(a: nat, b: nat, m: nat)
    requires m > 0
    ensures (a % m + b) % m == (a + b) % m
    ensures (a % m + b % m) % m == (a + b) % m
  {
    Euclid(a, m);
    Euclid(b, m);
    ModShift(a % m + b, a / m, m);
    ModShift(a % m + b % m, b / m, m);
  }

  lemma ModMul(a: nat, b: nat, m: nat)
    requires m > 0
    ensures a * b >= 0 && (a % m) * b >= 0
    ensures ((a % m) * b) % m == (a * b) % m
  {
    Euclid(a, m);
    var r, d := a % m, a / m;
    MulDist(b, r, m * d);
    MulComm(a, b);
    MulComm(r, b);
    MulAssoc(b, m, d);
    MulComm(b, m);
    MulAssoc(m, b, d);
    MulMono(b, 0, r);
    MulMono(b, 0, d);
    ModShift(r * b, b * d, m);
  }

  /** Shifting `x` left by `q` modulo `m == p * q` keeps the low part. */
  lemma ShiftModulo(x: nat, p: nat, q: nat, m: nat)
    requires p > 0 && q > 0 && m == p * q
    ensures m > 0 && x * q >= 0
    ensures (x * q) % m == q * (x % p)
    ensures x < m ==> x / p < q
  {
    var l, h := x % p, x / p;
    Euclid(x, p);
    MulMono(q, 1, p);
    MulComm(p, q);
    MulMono(q, l, p - 1);
    MulDist(q, p, 1);
    MulMono(q, 0, x);
    MulComm(q, x);
    MulDist(q, l, p * h);
    MulAssoc(q, p, h);
    MulMono(q, 0, l);
    DivModUnique(x * q, h, q * l, m);
    if x < m && h >= q {
      MulMono(p, q, h);
    }
  }
}
