/** Machine words: the 64-bit operators of the Swift client, the 32-bit
    operators of the JavaScript client, and the proof that arithmetic on a
    low/high pair of 32-bit words is arithmetic on the 64-bit word they spell.

    A JavaScript number is a natural number here. Every intermediate value in the
    code below stays under 2^53, where a double is exact. */
module Words {
  import opened Arith
  import opened Bits

  type u32 = x: int | 0 <= x < 0x1_0000_0000
  type u64 = x: int | 0 <= x < 0x1_0000_0000_0000_0000

  lemma TwoTo16()
    ensures Pow2(1) == 2 && Pow2(16) == 0x1_0000
  {
    assert Pow2(4) == 16;
    Pow2Add(4, 4);
    Pow2Add(8, 8);
  }

  lemma TwoTo32()
    ensures Pow2(31) == 0x8000_0000 && Pow2(32) == 0x1_0000_0000
  {
    TwoTo16();
    Pow2Add(16, 16);
  }

  lemma TwoTo64()
    ensures Pow2(63) == 0x8000_0000_0000_0000 && Pow2(64) == 0x1_0000_0000_0000_0000
  {
    TwoTo32();
    Pow2Add(32, 32);
  }

  // ------------------------------------------------------- 64-bit words

  function Add64(x: u64, y: u64): u64 { (x + y) % 0x1_0000_0000_0000_0000 }

  function Mul64(x: u64, y: u64): u64 {
    MulMono(x, 0, y);
    (x * y) % 0x1_0000_0000_0000_0000
  }

  function Xor64(x: u64, y: u64): u64 {
    TwoTo64();
    Bitwise(Xor, 64, x, y)
  }

  function Not64(x: u64): u64 { 0xffff_ffff_ffff_ffff - x }

  /** `(x >> n) | (x << (64 - n))` */
  function Rotr64(x: u64, n: nat): u64
    requires n <= 64
  {
    TwoTo64();
    Bitwise(Or, 64, ShiftRight(x, n), ShiftLeft(0x1_0000_0000_0000_0000, x, 64 - n))
  }

  /** The BlaMka addition: wrapping `x + y + 2 * lo(x) * lo(y)`. */
  function FBlaMka(x: u64, y: u64): u64 {
    Add64(Add64(x, y), Mul64(Mul64(2, x % 0x1_0000_0000), y % 0x1_0000_0000))
  }

  lemma FBlaMkaIsSum(x: u64, y: u64, a: u32, b: u32, p: nat)
    requires a == x % 0x1_0000_0000 && b == y % 0x1_0000_0000 && p == a * b
    ensures FBlaMka(x, y) == (x + y + 2 * p) % 0x1_0000_0000_0000_0000
  {
    DoubledProduct(a, b, p);
    ModAdd(x + y, 2 * p, 0x1_0000_0000_0000_0000);
    hide Mul64;
    assert Add64(x, y) == (x + y) % 0x1_0000_0000_0000_0000;
  }

  lemma DoubledProduct(a: u32, b: u32, p: nat)
    requires p == a * b
    ensures Mul64(Mul64(2, a), b) == (2 * p) % 0x1_0000_0000_0000_0000
  {
    MulAssoc(2, a, b);
    assert Mul64(2, a) == 2 * a;
  }

  /** A rotation moves the low `n` bits on top of the others. */
  lemma RotrIsSum(x: u64, n: nat, p: nat, q: nat)
    requires n <= 64 && p == Pow2(n) && q == Pow2(64 - n)
    ensures Rotr64(x, n) == x / p + q * (x % p)
  {
    hide Bitwise, ShiftLeft, ShiftRight;
    TwoTo64();
    Pow2Add(n, 64 - n);
    ShiftRightDivides(x, n, p);
    ShiftLeftMultiplies(0x1_0000_0000_0000_0000, x, 64 - n, q);
    ShiftModulo(x, p, q, 0x1_0000_0000_0000_0000);
    Euclid(x, p);
    OrOfDisjoint(64 - n, n, q, x / p, x % p);
  }

  // ------------------------------------------- JavaScript 32-bit operators

  /** `x >>> 0` */
  function ToU32(x: nat): u32 { x % 0x1_0000_0000 }

  /** `x >>> n` */
  function Shr(x: nat, n: nat): u32 { ShiftRight(ToU32(x), n) }

  /** `(x << n) >>> 0` */
  function Shl(x: nat, n: nat): u32 { ShiftLeft(0x1_0000_0000, x, n) }

  function And32(x: nat, y: nat): u32 {
    TwoTo32();
    Bitwise(And, 32, x, y)
  }

  function Or32(x: nat, y: nat): u32 {
    TwoTo32();
    Bitwise(Or, 32, x, y)
  }

  function Xor32(x: nat, y: nat): u32 {
    TwoTo32();
    Bitwise(Xor, 32, x, y)
  }

  function Not32(x: u32): u32 { 0xffff_ffff - x }

  lemma ShiftBy(x: u32, n: nat, p: nat)
    requires p == Pow2(n)
    ensures Shr(x, n) == x / p
    ensures x * p >= 0 && Shl(x, n) == x * p % 0x1_0000_0000
  {
    hide ShiftLeft, ShiftRight;
    ShiftRightDivides(x, n, p);
    ShiftLeftMultiplies(0x1_0000_0000, x, n, p);
  }

  /** Masking with `0xffff` and shifting by 16 take a word's limbs. */
  lemma Mask16(x: nat)
    ensures And32(x, 0xffff) == x % 0x1_0000
  {
    hide Bitwise, ShiftLeft, ShiftRight;
    TwoTo16();
    AndMask(16, 16, 0x1_0000, x);
  }

  lemma Limbs(x: u32)
    ensures And32(x, 0xffff) == x % 0x1_0000
    ensures Shr(x, 16) == x / 0x1_0000
    ensures x < 0x1_0000 ==> Shl(x, 16) == 0x1_0000 * x
  {
    hide Bitwise, ShiftLeft, ShiftRight;
    Mask16(x);
    TwoTo16();
    ShiftBy(x, 16, 0x1_0000);
  }

  // ------------------------------------------------------ low/high pairs

  /** The 64-bit word spelled by a low and a high half. */
  function Merge(lo: u32, hi: u32): u64 { lo + 0x1_0000_0000 * hi }

  datatype Pair = Pair(lo: u32, hi: u32) {
    function Word(): u64 { Merge(lo, hi) }
  }

  /** Add low halves, and carry when the low sum wrapped below its first operand. */
  function AddPair(a: Pair, b: Pair): (r: Pair)
    ensures r.Word() == Add64(a.Word(), b.Word())
  {
    AddPairCorrect(a.lo, a.hi, b.lo, b.hi);
    var lo := ToU32(a.lo + b.lo);
    Pair(lo, ToU32(a.hi + b.hi + (if lo < a.lo then 1 else 0)))
  }

  lemma AddPairCorrect(al: u32, ah: u32, bl: u32, bh: u32)
    ensures var lo := ToU32(al + bl);
      Merge(lo, ToU32(ah + bh + (if lo < al then 1 else 0))) == Add64(Merge(al, ah), Merge(bl, bh))
  {
    var c := if al + bl >= 0x1_0000_0000 then 1 else 0;
    var k := if ah + bh + c >= 0x1_0000_0000 then 1 else 0;
    assert ToU32(al + bl) == al + bl - 0x1_0000_0000 * c;
    assert ToU32(ah + bh + c) == ah + bh + c - 0x1_0000_0000 * k;
  }

  function XorPairs(a: Pair, b: Pair): (r: Pair)
    ensures r.Word() == Xor64(a.Word(), b.Word())
  {
    XorPairCorrect(a.lo, a.hi, b.lo, b.hi);
    Pair(Xor32(a.lo, b.lo), Xor32(a.hi, b.hi))
  }

  lemma XorPairCorrect(al: u32, ah: u32, bl: u32, bh: u32)
    ensures Xor64(Merge(al, ah), Merge(bl, bh)) == Merge(Xor32(al, bl), Xor32(ah, bh))
  {
    TwoTo32();
    hide Bitwise;
    SplitSum(Xor, 32, 32, 0x1_0000_0000, al, ah, bl, bh);
  }

  /** The two crosswise shifts that rotate a pair right by fewer than 32 bits. */
  function RotrPair(x: Pair, n: nat): (r: Pair)
    requires 0 < n < 32
    ensures r.Word() == Rotr64(x.Word(), n)
  {
    RotrPairCorrect(x.lo, x.hi, n);
    Pair(Or32(Shr(x.lo, n), Shl(x.hi, 32 - n)), Or32(Shr(x.hi, n), Shl(x.lo, 32 - n)))
  }

  /** One half of a rotated pair. */
  lemma HalfRotation(x: u32, y: u32, n: nat, p: nat, q: nat)
    requires n <= 32 && p == Pow2(n) && q == Pow2(32 - n)
    ensures Or32(Shr(x, n), Shl(y, 32 - n)) == x / p + q * (y % p)
    ensures Or32(Shl(y, 32 - n), Shr(x, n)) == x / p + q * (y % p)
  {
    hide Bitwise, ShiftLeft, ShiftRight;
    TwoTo32();
    Pow2Add(n, 32 - n);
    ShiftModulo(x, p, q, 0x1_0000_0000);
    ShiftModulo(y, p, q, 0x1_0000_0000);
    Euclid(x, p);
    Euclid(y, p);
    ShiftBy(x, n, p);
    ShiftBy(y, 32 - n, q);
    OrOfDisjoint(32 - n, n, q, x / p, y % p);
  }

  lemma RotrPairCorrect(lo: u32, hi: u32, n: nat)
    requires 0 < n < 32
    ensures Rotr64(Merge(lo, hi), n)
         == Merge(Or32(Shr(lo, n), Shl(hi, 32 - n)), Or32(Shr(hi, n), Shl(lo, 32 - n)))
  {
    hide Bitwise, ShiftLeft, ShiftRight;
    TwoTo32();
    Pow2Add(n, 32 - n);
    Pow2Add(32, 32 - n);
    HalfRotation(lo, hi, n, Pow2(n), Pow2(32 - n));
    HalfRotation(hi, lo, n, Pow2(n), Pow2(32 - n));
    RotrIsSum(Merge(lo, hi), n, Pow2(n), Pow2(64 - n));
    RotationArithmetic(lo, hi, Pow2(n), Pow2(32 - n));
    MulAssoc(0x1_0000_0000, Pow2(32 - n), lo % Pow2(n));
  }

  /** A rotation by the factor `p` of a number in base `p * q`. */
  lemma RotationArithmetic(lo: nat, hi: nat, p: nat, q: nat)
    requires p > 0 && q > 0 && p * q == 0x1_0000_0000
    ensures var x := lo + 0x1_0000_0000 * hi;
      && x / p == lo / p + q * (hi % p) + 0x1_0000_0000 * (hi / p)
      && x % p == lo % p
  {
    var x := lo + 0x1_0000_0000 * hi;
    Euclid(lo, p);
    Euclid(hi, p);
    MulAssoc(p, q, hi);
    MulMono(q, 0, hi);
    MulDist(p, lo / p, q * hi);
    DivModUnique(x, lo / p + q * hi, lo % p, p);
    MulDist(q, hi % p, p * (hi / p));
    MulAssoc(q, p, hi / p);
    MulComm(p, q);
  }

  /** Rotation by 32 exchanges the halves. */
  function SwapPair(x: Pair): (r: Pair)
    ensures r.Word() == Rotr64(x.Word(), 32)
  {
    SwapPairCorrect(x.lo, x.hi);
    Pair(x.hi, x.lo)
  }

  lemma SwapPairCorrect(lo: u32, hi: u32)
    ensures Rotr64(Merge(lo, hi), 32) == Merge(hi, lo)
  {
    hide Bitwise, ShiftLeft, ShiftRight;
    TwoTo32();
    RotrIsSum(Merge(lo, hi), 32, 0x1_0000_0000, 0x1_0000_0000);
    DivModUnique(Merge(lo, hi), hi, lo, 0x1_0000_0000);
  }

  /** Rotation right by 63 is rotation left by one. */
  function Rotl1Pair(x: Pair): (r: Pair)
    ensures r.Word() == Rotr64(x.Word(), 63)
  {
    Rotl1PairCorrect(x.lo, x.hi);
    Pair(Or32(Shl(x.lo, 1), Shr(x.hi, 31)), Or32(Shl(x.hi, 1), Shr(x.lo, 31)))
  }

  lemma Rotl1PairCorrect(lo: u32, hi: u32)
    ensures Rotr64(Merge(lo, hi), 63)
         == Merge(Or32(Shl(lo, 1), Shr(hi, 31)), Or32(Shl(hi, 1), Shr(lo, 31)))
  {
    hide Bitwise, ShiftLeft, ShiftRight;
    TwoTo16();
    TwoTo32();
    TwoTo64();
    Pow2Add(32, 31);
    HalfRotation(hi, lo, 31, 0x8000_0000, 2);
    HalfRotation(lo, hi, 31, 0x8000_0000, 2);
    RotrIsSum(Merge(lo, hi), 63, 0x8000_0000_0000_0000, 2);
    var l, h := hi % 0x8000_0000, hi / 0x8000_0000;
    DivModUnique(Merge(lo, hi), h, lo + 0x1_0000_0000 * l, 0x8000_0000_0000_0000);
  }

  // ------------------------------------------------ 16-bit-limb products

  /** Schoolbook multiplication of two words in 16-bit limbs. */
  lemma LimbProduct(x: nat, y: nat, xl: nat, xh: nat, yl: nat, yh: nat)
    requires x == xl + 0x1_0000 * xh && y == yl + 0x1_0000 * yh
    ensures x * y == xl * yl + 0x1_0000 * (xh * yl + xl * yh) + 0x1_0000_0000 * (xh * yh)
  {
    MulDist(x, yl, 0x1_0000 * yh);
    MulComm(x, yl);
    MulDist(yl, xl, 0x1_0000 * xh);
    MulComm(x, 0x1_0000 * yh);
    MulAssoc(0x1_0000, yh, x);
    MulDist(yh, xl, 0x1_0000 * xh);
    MulComm(yl, xl);
    MulComm(yl, 0x1_0000 * xh);
    MulAssoc(0x1_0000, xh, yl);
    MulComm(yh, xl);
    MulComm(yh, 0x1_0000 * xh);
    MulAssoc(0x1_0000, xh, yh);
  }

  datatype LimbProducts = LimbProducts(t0: u32, t1: u32, t2: u32, t3: u32) {
    function Total(): nat { t0 + 0x1_0000 * (t1 + t2) + 0x1_0000_0000 * t3 }
  }

  lemma LimbFits(a: nat, b: nat)
    requires a < 0x1_0000 && b < 0x1_0000
    ensures 0 <= a * b < 0x1_0000_0000
  {
    MulMono(a, 0, b);
    MulMono(a, b, 0xffff);
    MulComm(a, 0xffff);
  }

  /** The four products of the 16-bit limbs of `x` and `y`. */
  function MultiplyLimbs(x: u32, y: u32): (t: LimbProducts)
    ensures t.Total() == x * y
  {
    Limbs(x);
    Limbs(y);
    var xl, xh, yl, yh := And32(x, 0xffff), Shr(x, 16), And32(y, 0xffff), Shr(y, 16);
    LimbFits(xl, yl);
    LimbFits(xh, yl);
    LimbFits(xl, yh);
    LimbFits(xh, yh);
    LimbProduct(x, y, xl, xh, yl, yh);
    LimbProducts(xl * yl, xh * yl, xl * yh, xh * yh)
  }

  /** The carries out of the two middle limb products. */
  function MiddleLimb(t: LimbProducts): nat {
    Shr(t.t0, 16) + And32(t.t1, 0xffff) + And32(t.t2, 0xffff)
  }

  function ProductLow(t: LimbProducts): u32 {
    Or32(And32(t.t0, 0xffff), Shl(And32(MiddleLimb(t), 0xffff), 16))
  }

  function ProductHigh(t: LimbProducts): nat {
    t.t3 + Shr(t.t1, 16) + Shr(t.t2, 16) + Shr(MiddleLimb(t), 16)
  }

  /** Gathering the four limb products with their carries loses nothing. */
  lemma CarryLimbs(t: LimbProducts)
    ensures ProductLow(t) + 0x1_0000_0000 * ProductHigh(t) == t.Total()
  {
    hide Bitwise, ShiftLeft, ShiftRight;
    Limbs(t.t0);
    Limbs(t.t1);
    Limbs(t.t2);
    var mid := MiddleLimb(t);
    Limbs(mid);
    Limbs(mid % 0x1_0000);
    TwoTo16();
    OrOfDisjoint(16, 16, 0x1_0000, t.t0 % 0x1_0000, mid % 0x1_0000);
  }

  lemma HalvesOf(lo: u32, hi: nat, z: nat)
    requires lo + 0x1_0000_0000 * hi == z < 0x1_0000_0000_0000_0000
    ensures hi < 0x1_0000_0000 && ToU32(hi) == hi == z / 0x1_0000_0000
  {
  }

  lemma ProductFits(x: u32, y: u32)
    ensures 0 <= x * y < 0x1_0000_0000_0000_0000
  {
    MulMono(x, 0, y);
    MulMono(x, y, 0xffff_ffff);
    MulComm(x, 0xffff_ffff);
  }

  lemma ProductHalves(x: u32, y: u32, t: LimbProducts)
    requires t.Total() == x * y
    ensures Merge(ProductLow(t), ToU32(ProductHigh(t))) == x * y
    ensures ToU32(ProductHigh(t)) == x * y / 0x1_0000_0000
  {
    CarryLimbs(t);
    ProductFits(x, y);
    HalvesOf(ProductLow(t), ProductHigh(t), x * y);
  }

  /** Both halves of a 32 by 32 bit product, by limbs and carries. */
  function ProductPair(x: u32, y: u32): (r: Pair)
    ensures r.Word() == x * y
  {
    var t := MultiplyLimbs(x, y);
    ProductHalves(x, y, t);
    Pair(ProductLow(t), ToU32(ProductHigh(t)))
  }

  function HighWord(x: nat, y: nat): nat {
    MulMono(x, 0, y);
    x * y / 0x1_0000_0000
  }

  /** High 32 bits of the product of two unsigned 32-bit integers. */
  function MulHigh32(x: u32, y: u32): (r: u32)
    ensures r == HighWord(x, y)
  {
    ProductFits(x, y);
    var t := MultiplyLimbs(x, y);
    ProductHalves(x, y, t);
    ToU32(ProductHigh(t))
  }

  /** The BlaMka addition on pairs: a pair sum, then the doubled product with
      its own carry. */
  function FBlaMkaPair(a: Pair, b: Pair): (r: Pair)
    ensures r.Word() == FBlaMka(a.Word(), b.Word())
  {
    var p := ProductPair(a.lo, b.lo);
    var s := AddPair(a, b);
    DoublePair(p);
    FBlaMkaByHalves(a, b, p.Word());
    AddPair(s, Pair(Shl(p.lo, 1), Or32(Shl(p.hi, 1), Shr(p.lo, 31))))
  }

  lemma LowHalf(p: Pair)
    ensures p.Word() % 0x1_0000_0000 == p.lo
  {
  }

  lemma FBlaMkaByHalves(a: Pair, b: Pair, p: u64)
    requires p == a.lo * b.lo
    ensures Add64(Add64(a.Word(), b.Word()), 2 * p % 0x1_0000_0000_0000_0000)
         == FBlaMka(a.Word(), b.Word())
  {
    hide FBlaMka, Add64, Merge;
    LowHalf(a);
    LowHalf(b);
    FBlaMkaIsSum(a.Word(), b.Word(), a.lo, b.lo, p);
    AddTwice(a.Word(), b.Word(), p);
  }

  lemma AddTwice(x: u64, y: u64, p: u64)
    ensures Add64(Add64(x, y), 2 * p % 0x1_0000_0000_0000_0000)
         == (x + y + 2 * p) % 0x1_0000_0000_0000_0000
  {
    ModAdd(x + y, 2 * p, 0x1_0000_0000_0000_0000);
  }

  lemma DoublePair(p: Pair)
    ensures Merge(Shl(p.lo, 1), Or32(Shl(p.hi, 1), Shr(p.lo, 31)))
         == 2 * p.Word() % 0x1_0000_0000_0000_0000
  {
    hide Bitwise, ShiftLeft, ShiftRight;
    TwoTo16();
    TwoTo32();
    ShiftBy(p.lo, 1, 2);
    HalfRotation(p.lo, p.hi, 31, 0x8000_0000, 2);
    DoubleHalves(p.lo, p.hi);
  }

  lemma DoubleHalves(lo: u32, hi: u32)
    ensures lo * 2 % 0x1_0000_0000 + 0x1_0000_0000 * (lo / 0x8000_0000 + 2 * (hi % 0x8000_0000))
         == 2 * (lo + 0x1_0000_0000 * hi) % 0x1_0000_0000_0000_0000
  {
    var c, k := lo / 0x8000_0000, hi / 0x8000_0000;
    var r := 2 * lo - 0x1_0000_0000 * c + 0x1_0000_0000 * (c + 2 * (hi % 0x8000_0000));
    assert lo * 2 % 0x1_0000_0000 == 2 * lo - 0x1_0000_0000 * c;
    DivModUnique(2 * (lo + 0x1_0000_0000 * hi), k, r, 0x1_0000_0000_0000_0000);
  }
}
