/** Checked 64-bit arithmetic (include/naf/core/checked.hpp).

    Machine values are integers below 2^64 and every operation that can wrap is
    written with an explicit reduction. A bitwise `|` whose operands share no set
    bit is written as `+`. */
module Checked {
  import opened Base

  datatype U128 = U128(hi: u64, lo: u64)

  ghost function Value(v: U128): nat {
    v.hi * TWO64 + v.lo
  }

  // ------------------------------------------------------------------
  // 64 x 64 -> 128 multiplication
  // ------------------------------------------------------------------

  lemma NonNegative(x: int, y: int)
    requires x >= 0 && y >= 0
    ensures x * y >= 0
  {}

  lemma Distribute(a: int, b: int, d: int)
    ensures (b - a) * d == b * d - a * d
  {}

  lemma MulOrder(a: int, b: int, d: int)
    requires d >= 0
    ensures a <= b ==> a * d <= b * d
    ensures a < b ==> a * d + d <= b * d
  {
    if a <= b {
      NonNegative(b - a, d);
      Distribute(a, b, d);
    }
    if a < b {
      NonNegative(b - (a + 1), d);
      Distribute(a + 1, b, d);
      Distribute(a, a + 1, d);
    }
  }

  lemma HalfProduct(x: int, y: int)
    requires 0 <= x <= 0xFFFF_FFFF && 0 <= y <= 0xFFFF_FFFF
    ensures 0 <= x * y <= 0xFFFF_FFFE_0000_0001
  {
    MulOrder(x, 0xFFFF_FFFF, y);
    MulOrder(0, x, y);
  }

  lemma SplitProduct(a0: int, a1: int, b0: int, b1: int, w: int)
    ensures (a1 * w + a0) * (b1 * w + b0) == a1 * b1 * (w * w) + (a0 * b1 + a1 * b0) * w + a0 * b0
  {}

  /** Recombining the partial products of 32-bit halves, with the carries the
      64-bit code takes, gives the full product. */
  lemma Recombine(p00: int, p01: int, p10: int, p11: int)
    requires 0 <= p00 <= 0xFFFF_FFFE_0000_0001 && 0 <= p01 <= 0xFFFF_FFFE_0000_0001
    requires 0 <= p10 <= 0xFFFF_FFFE_0000_0001 && 0 <= p11 <= 0xFFFF_FFFE_0000_0001
    ensures
      var mid := p00 / 0x1_0000_0000 + p01 % 0x1_0000_0000 + p10 % 0x1_0000_0000;
      var hi := p11 + p01 / 0x1_0000_0000 + p10 / 0x1_0000_0000 + mid / 0x1_0000_0000;
      var lo := p00 % 0x1_0000_0000 + mid * 0x1_0000_0000 % 0x1_0000_0000_0000_0000;
      mid <= 0xFFFF_FFFF_FFFF_FFFF && 0 <= lo <= 0xFFFF_FFFF_FFFF_FFFF &&
      hi * 0x1_0000_0000_0000_0000 + lo
        == p11 * 0x1_0000_0000_0000_0000 + (p01 + p10) * 0x1_0000_0000 + p00
  {
    var mid := p00 / 0x1_0000_0000 + p01 % 0x1_0000_0000 + p10 % 0x1_0000_0000;
    assert mid * 0x1_0000_0000 % 0x1_0000_0000_0000_0000 == mid % 0x1_0000_0000 * 0x1_0000_0000;
  }

  /** What a 64-bit register keeps of a result. */
  function Wrap(x: int): u64 {
    x % 0x1_0000_0000_0000_0000
  }

  /** Schoolbook multiplication on 32-bit halves. */
  function MulU64Portable(a: u64, b: u64): (r: U128) {
    var a0, a1 := a % 0x1_0000_0000, a / 0x1_0000_0000;
    var b0, b1 := b % 0x1_0000_0000, b / 0x1_0000_0000;
    FromPartials(Wrap(a0 * b0), Wrap(a0 * b1), Wrap(a1 * b0), Wrap(a1 * b1))
  }

  function FromPartials(p00: u64, p01: u64, p10: u64, p11: u64): U128 {
    var mid := Wrap(p00 / 0x1_0000_0000 + p01 % 0x1_0000_0000 + p10 % 0x1_0000_0000);
    U128(Wrap(p11 + p01 / 0x1_0000_0000 + p10 / 0x1_0000_0000 + mid / 0x1_0000_0000),
         Wrap(p00 % 0x1_0000_0000 + Wrap(mid * 0x1_0000_0000)))
  }

  lemma ProductFits(a: u64, b: u64)
    ensures 0 <= a * b <= 0xFFFF_FFFF_FFFF_FFFF * 0xFFFF_FFFF_FFFF_FFFF
  {
    NonNegative(a, b);
    MulOrder(a, 0xFFFF_FFFF_FFFF_FFFF, b);
    MulOrder(b, 0xFFFF_FFFF_FFFF_FFFF, 0xFFFF_FFFF_FFFF_FFFF);
  }

  lemma WrapFits(x: int)
    requires 0 <= x <= 0xFFFF_FFFF_FFFF_FFFF
    ensures Wrap(x) == x
  {}

  lemma PartialsExact(a0: u64, a1: u64, b0: u64, b1: u64, n: int)
    requires a0 <= 0xFFFF_FFFF && a1 <= 0xFFFF_FFFF && b0 <= 0xFFFF_FFFF && b1 <= 0xFFFF_FFFF
    requires n == a1 * b1 * 0x1_0000_0000_0000_0000 + (a0 * b1 + a1 * b0) * 0x1_0000_0000 + a0 * b0
    requires n <= 0xFFFF_FFFF_FFFF_FFFF * 0xFFFF_FFFF_FFFF_FFFF
    ensures Value(FromPartials(Wrap(a0 * b0), Wrap(a0 * b1), Wrap(a1 * b0), Wrap(a1 * b1))) == n
  {
    var p00 := FittingProduct(a0, b0);
    var p01 := FittingProduct(a0, b1);
    var p10 := FittingProduct(a1, b0);
    var p11 := FittingProduct(a1, b1);
    WithoutWrap(p00, p01, p10, p11, n);
  }

  lemma FittingProduct(x: u64, y: u64) returns (p: u64)
    requires x <= 0xFFFF_FFFF && y <= 0xFFFF_FFFF
    ensures p == x * y == Wrap(x * y) && p <= 0xFFFF_FFFE_0000_0001
  {
    HalfProduct(x, y);
    p := x * y;
    WrapFits(p);
  }

  /** The multiplication is exact for all operands: none of its partial sums
      wraps. */
  lemma MulExact(a: u64, b: u64)
    ensures Value(MulU64Portable(a, b)) == a * b
  {
    ProductFits(a, b);
    HalvesExact(a, b, a % 0x1_0000_0000, a / 0x1_0000_0000, b % 0x1_0000_0000, b / 0x1_0000_0000);
  }

  lemma HalvesExact(a: u64, b: u64, a0: u64, a1: u64, b0: u64, b1: u64)
    requires a0 <= 0xFFFF_FFFF && a1 <= 0xFFFF_FFFF && b0 <= 0xFFFF_FFFF && b1 <= 0xFFFF_FFFF
    requires a == a1 * 0x1_0000_0000 + a0 && b == b1 * 0x1_0000_0000 + b0
    requires a * b <= 0xFFFF_FFFF_FFFF_FFFF * 0xFFFF_FFFF_FFFF_FFFF
    ensures Value(FromPartials(Wrap(a0 * b0), Wrap(a0 * b1), Wrap(a1 * b0), Wrap(a1 * b1))) == a * b
  {
    SplitProduct(a0, a1, b0, b1, 0x1_0000_0000);
    PartialsExact(a0, a1, b0, b1, a * b);
  }

  lemma WithoutWrap(p00: u64, p01: u64, p10: u64, p11: u64, n: int)
    requires p00 <= 0xFFFF_FFFE_0000_0001 && p01 <= 0xFFFF_FFFE_0000_0001
    requires p10 <= 0xFFFF_FFFE_0000_0001 && p11 <= 0xFFFF_FFFE_0000_0001
    requires n == p11 * 0x1_0000_0000_0000_0000 + (p01 + p10) * 0x1_0000_0000 + p00
    requires n <= 0xFFFF_FFFF_FFFF_FFFF * 0xFFFF_FFFF_FFFF_FFFF
    ensures Value(FromPartials(p00, p01, p10, p11)) == n
  {
    Recombine(p00, p01, p10, p11);
    var mid := p00 / 0x1_0000_0000 + p01 % 0x1_0000_0000 + p10 % 0x1_0000_0000;
    WrapFits(mid);
    WrapFits(p00 % 0x1_0000_0000 + Wrap(mid * 0x1_0000_0000));
    WrapFits(p11 + p01 / 0x1_0000_0000 + p10 / 0x1_0000_0000 + mid / 0x1_0000_0000);
  }

  // ------------------------------------------------------------------
  // Bit-serial 128 / 64 division
  // ------------------------------------------------------------------

  function Pow2(n: nat): (r: nat)
    ensures r > 0
  {
    if n == 0 then 1 else 2 * Pow2(n - 1)
  }

  lemma Pow2At63()
    ensures Pow2(63) == 0x8000_0000_0000_0000
    ensures Pow2(64) == TWO64
  {
    assert Pow2(8) == 0x100;
    assert Pow2(16) == 0x1_0000;
    assert Pow2(24) == 0x100_0000;
    assert Pow2(32) == TWO32;
    assert Pow2(40) == 0x100_0000_0000;
    assert Pow2(48) == 0x1_0000_0000_0000;
    assert Pow2(56) == 0x100_0000_0000_0000;
    assert Pow2(63) == 0x8000_0000_0000_0000;
  }

  lemma Halve(lo: nat, p: nat, q: nat, r: nat, h: nat, b: nat)
    requires p > 0 && lo == p * q + r && r < p && q == 2 * h + b && b <= 1
    ensures lo / (2 * p) == h
  {
    assert p * q == 2 * p * h + p * b by {
      assert p * (2 * h + b) == p * (2 * h) + p * b;
      assert p * (2 * h) == 2 * p * h;
    }
    assert p * b <= p;
    DivUnique(lo, 2 * p, h, p * b + r);
  }

  lemma SplitEven(q: nat) returns (h: nat, b: nat)
    ensures q == 2 * h + b && b <= 1 && b == q % 2
  {
    h, b := q / 2, q % 2;
  }

  lemma SplitBy(lo: nat, p: nat) returns (q: nat, r: nat)
    requires p > 0
    ensures lo == p * q + r && r < p && q == lo / p
  {
    q, r := lo / p, lo % p;
  }

  /** Shifting out one bit fewer doubles the value and adds that bit. */
  lemma NextBit(lo: nat, i: nat)
    ensures lo / Pow2(i) == 2 * (lo / Pow2(i + 1)) + lo / Pow2(i) % 2
  {
    var q, r := SplitBy(lo, Pow2(i));
    var h, b := SplitEven(q);
    Halve(lo, Pow2(i), q, r, h, b);
  }

  lemma DivUnique(n: int, d: int, q: int, r: int)
    requires d > 0 && n == d * q + r && 0 <= r < d
    ensures n / d == q && n % d == r
  {
    var q', r' := n / d, n % d;
    assert n == d * q' + r';
    MulOrder(q, q', d);
    MulOrder(q', q, d);
  }

  /** One round of the shift-subtract loop on machine words: `carry` is the bit
      the shift pushes out, and the subtraction may wrap. */
  lemma RoundExact(rem: int, bit: int, d: int)
    requires 0 <= rem < d < TWO64 && 0 <= bit <= 1
    ensures
      var carry := rem / 0x8000_0000_0000_0000;
      var shifted := rem * 2 % TWO64 + bit;
      var full := 2 * rem + bit;
      if carry != 0 || shifted >= d
      then full - d == (shifted - d) % TWO64 && 0 <= full - d < d
      else shifted == full < d
  {
    var carry := rem / 0x8000_0000_0000_0000;
    var shifted := rem * 2 % TWO64 + bit;
    if carry != 0 {
      assert carry == 1;
      assert 2 * rem == TWO64 + rem * 2 % TWO64;
    }
  }

  lemma QuotientStep(n: int, q: int, d: int, rem: int, bit: int, rem': int, taken: bool)
    requires n == q * d + rem
    requires rem' == 2 * rem + bit - (if taken then d else 0)
    ensures 2 * n + bit == (2 * q + (if taken then 1 else 0)) * d + rem'
  {}

  lemma Doubles(x: int, y: int)
    ensures x * (2 * y) == 2 * (x * y) == (2 * x) * y
    ensures (2 * x + 1) * y == (2 * x) * y + y
  {}

  lemma PrefixStep(hi: nat, lo: nat, i: nat, k: nat)
    requires k + i == 63
    ensures hi * Pow2(k + 1) + lo / Pow2(i)
         == 2 * (hi * Pow2(k) + lo / Pow2(i + 1)) + lo / Pow2(i) % 2
  {
    NextBit(lo, i);
    Doubles(hi, Pow2(k));
  }

  lemma QuotientFits(q: int, d: int, rem: int, n: int, bound: int)
    requires d > 0 && 0 <= rem < d && n == q * d + rem && 0 <= n < bound * d
    ensures 0 <= q < bound
  {
    MulOrder(bound, q, d);
    MulOrder(q, -1, d);
  }

  lemma DivBelow(n: nat, p: nat, b: nat)
    requires p > 0 && n < b * p
    ensures n / p < b
  {
    assert n == p * (n / p) + n % p;
    MulOrder(b, n / p, p);
  }

  lemma PrefixBelow(hi: nat, lo: nat, d: nat, pk: nat, pi: nat)
    requires hi < d && pi > 0 && lo < pk * pi
    ensures 0 <= hi * pk + lo / pi < pk * d
  {
    NonNegative(hi, pk);
    DivBelow(lo, pi, pk);
    MulOrder(hi, d, pk);
  }

  lemma {:induction false} Pow2Sum(a: nat, b: nat)
    ensures Pow2(a + b) == Pow2(a) * Pow2(b)
  {
    if a > 0 {
      Pow2Sum(a - 1, b);
      assert Pow2(a + b) == 2 * Pow2(a - 1 + b);
      Reassociate(2, Pow2(a - 1), Pow2(b));
    }
  }

  lemma Reassociate(x: int, y: int, z: int)
    ensures x * y * z == x * (y * z)
  {}

  /** The numerator formed by the high word and the top bits of the low word
      down to bit i. */
  ghost function Consumed(v: U128, i: nat): int
    requires i <= 64
  {
    v.hi * Pow2(64 - i) + v.lo / Pow2(i)
  }

  /** With bits i and above consumed, `whole` and `rem` are quotient and
      remainder so far and `quot` holds `whole` in its top bits. */
  ghost predicate Dividing(v: U128, d: u64, rem: u64, quot: u64, whole: nat, i: nat) {
    i <= 64 && rem < d && Consumed(v, i) == whole * d + rem && quot == whole * Pow2(i)
  }

  lemma ConsumedStep(v: U128, i: nat)
    requires i < 64
    ensures Consumed(v, i) == 2 * Consumed(v, i + 1) + v.lo / Pow2(i) % 2
  {
    PrefixStep(v.hi, v.lo, i, 63 - i);
  }

  lemma ConsumedBelow(v: U128, d: u64, i: nat)
    requires i <= 64 && v.hi < d
    ensures 0 <= Consumed(v, i) < Pow2(64 - i) * d
  {
    Pow2At63();
    Pow2Sum(64 - i, i);
    PrefixBelow(v.hi, v.lo, d, Pow2(64 - i), Pow2(i));
  }

  lemma QuotientBits(quot: int, whole: nat, i: nat, taken: bool)
    requires quot == whole * Pow2(i + 1)
    ensures quot + (if taken then Pow2(i) else 0) == (2 * whole + (if taken then 1 else 0)) * Pow2(i)
  {
    Doubles(whole, Pow2(i));
  }

  lemma DivisionRound(v: U128, d: u64, rem: u64, quot: u64, whole: nat, i: nat, rem': int, taken: bool)
    requires i < 64 && v.hi < d && Dividing(v, d, rem, quot, whole, i + 1)
    requires rem' == 2 * rem + v.lo / Pow2(i) % 2 - (if taken then d else 0)
    requires 0 <= rem' < d
    ensures 0 <= quot + (if taken then Pow2(i) else 0) <= MAX64
    ensures Dividing(v, d, rem', quot + (if taken then Pow2(i) else 0), 2 * whole + (if taken then 1 else 0), i)
  {
    var whole' := 2 * whole + (if taken then 1 else 0);
    ConsumedStep(v, i);
    QuotientStep(Consumed(v, i + 1), whole, d, rem, v.lo / Pow2(i) % 2, rem', taken);
    ConsumedBelow(v, d, i);
    QuotientFits(whole', d, rem', Consumed(v, i), Pow2(64 - i));
    QuotientRoom(whole', i);
    QuotientBits(quot, whole, i, taken);
  }

  lemma QuotientRoom(whole: nat, i: nat)
    requires i <= 64 && whole < Pow2(64 - i)
    ensures 0 <= whole * Pow2(i) <= MAX64
  {
    Pow2At63();
    Pow2Sum(64 - i, i);
    NonNegative(whole, Pow2(i));
    MulOrder(whole, Pow2(64 - i), Pow2(i));
  }

  lemma QuotientRange(v: U128, d: u64)
    ensures v.hi < d <==> Value(v) < TWO64 * d
  {
    MulOrder(v.hi, d, 0x1_0000_0000_0000_0000);
    MulOrder(d, v.hi, 0x1_0000_0000_0000_0000);
  }

  lemma DivisionDone(v: U128, d: u64, rem: u64, quot: u64, whole: nat)
    requires Dividing(v, d, rem, quot, whole, 0)
    ensures quot == Value(v) / d && rem == Value(v) % d
  {
    Pow2At63();
    DivUnique(Value(v), d, whole, rem);
  }

  lemma DivisionStart(v: U128, d: u64)
    requires v.hi < d
    ensures Dividing(v, d, v.hi, 0, 0, 64)
  {
    Pow2At63();
    assert v.lo / Pow2(64) == 0;
  }

  /** One round: shift in the next bit and subtract the divisor if it fits. */
  method DivideRound(v: U128, d: u64, rem: u64, quot: u64, i: nat, ghost whole: nat) returns (rem': u64, quot': u64, ghost whole': nat)
    requires v.hi < d && i < 64 && Dividing(v, d, rem, quot, whole, i + 1)
    ensures Dividing(v, d, rem', quot', whole', i)
  {
    var bit := v.lo / Pow2(i) % 2;
    var carry := rem / 0x8000_0000_0000_0000;
    var shifted := rem * 2 % 0x1_0000_0000_0000_0000 + bit;
    RoundExact(rem, bit, d);
    if carry != 0 || shifted >= d {
      rem' := Wrap(shifted - d);
      DivisionRound(v, d, rem, quot, whole, i, rem', true);
      quot', whole' := quot + Pow2(i), 2 * whole + 1;
    } else {
      rem' := shifted;
      DivisionRound(v, d, rem, quot, whole, i, rem', false);
      quot', whole' := quot, 2 * whole;
    }
  }

  /** Divides a 128-bit value by a 64-bit one, one bit at a time. Succeeds exactly
      when the divisor is non-zero and the quotient fits in 64 bits. */
  method DivModU128Portable(v: U128, d: u64) returns (ok: bool, q: u64, r: u64)
    ensures ok <==> d != 0 && Value(v) < TWO64 * d
    ensures ok ==> q == Value(v) / d && r == Value(v) % d
  {
    QuotientRange(v, d);
    if d == 0 || v.hi >= d {
      return false, 0, 0;
    }
    var rem: u64 := v.hi;
    var quot: u64 := 0;
    ghost var whole: nat := 0;
    DivisionStart(v, d);
    var i: nat := 64;
    while i > 0
      invariant i <= 64 && Dividing(v, d, rem, quot, whole, i)
    {
      i := i - 1;
      rem, quot, whole := DivideRound(v, d, rem, quot, i, whole);
    }
    DivisionDone(v, d, rem, quot, whole);
    return true, quot, rem;
  }

  lemma ZeroProduct(a: u64, num: u64, den: u64)
    requires (a == 0 || num == 0) && den > 0
    ensures a * num == 0 && 0 < TWO64 * den && a * num / den == 0
  {}

  /** floor(a * num / den), refused when the divisor is zero or the result does
      not fit. */
  method MulDivFloor(a: u64, num: u64, den: u64) returns (ok: bool, out: u64)
    ensures ok <==> den != 0 && a * num < TWO64 * den
    ensures ok ==> out == a * num / den
  {
    if den == 0 {
      return false, 0;
    }
    if a == 0 || num == 0 {
      ZeroProduct(a, num, den);
      return true, 0;
    }
    var p := MulU64Portable(a, num);
    var q, r;
    ok, q, r := DivModU128Portable(p, den);
    out := q;
    assert Value(p) == a * num by {
      MulExact(a, num);
    }
  }

  /** The least value at or above n / den, and when it fits in 64 bits. */
  ghost predicate IsCeil(n: nat, den: nat, out: int) {
    (out - 1) * den < n <= out * den
  }

  lemma CeilUp(n: nat, den: nat, q: int, r: int)
    requires den > 0 && n == q * den + r && 0 < r < den
    ensures IsCeil(n, den, q + 1)
    ensures n <= MAX64 * den <==> q < MAX64
  {
    Distribute(-1, q, den);
    MulOrder(q + 1, 0xFFFF_FFFF_FFFF_FFFF, den);
    MulOrder(0xFFFF_FFFF_FFFF_FFFF, q, den);
  }

  lemma CeilExact(n: nat, den: nat, q: int)
    requires den > 0 && n == q * den
    ensures IsCeil(n, den, q)
    ensures n <= MAX64 * den <==> q <= MAX64
  {
    Distribute(1, q, den);
    MulOrder(q, 0xFFFF_FFFF_FFFF_FFFF, den);
    MulOrder(0xFFFF_FFFF_FFFF_FFFF, q, den);
  }

  lemma QuotientParts(n: nat, den: nat)
    requires den > 0
    ensures n == n / den * den + n % den
    ensures n < TWO64 * den <==> n / den <= MAX64
  {
    assert n == den * (n / den) + n % den;
    MulOrder(n / den, 0xFFFF_FFFF_FFFF_FFFF, den);
    MulOrder(0x1_0000_0000_0000_0000, n / den, den);
  }

  lemma CeilZero(den: nat)
    requires den > 0
    ensures IsCeil(0, den, 0)
  {}

  /** ceil(a * num / den), refused under the same conditions or when rounding up
      leaves the range. */
  method MulDivCeil(a: u64, num: u64, den: u64) returns (ok: bool, out: u64)
    ensures ok <==> den != 0 && Value(MulU64Portable(a, num)) <= MAX64 * den
    ensures ok ==> IsCeil(Value(MulU64Portable(a, num)), den, out)
  {
    if den == 0 {
      return false, 0;
    }
    ghost var n := Value(MulU64Portable(a, num));
    if a == 0 || num == 0 {
      MulExact(a, num);
      CeilZero(den);
      return true, 0;
    }
    var q, r;
    ok, q, r := DivModU128Portable(MulU64Portable(a, num), den);
    QuotientParts(n, den);
    if n % den == 0 {
      CeilExact(n, den, n / den);
    } else {
      CeilUp(n, den, n / den, n % den);
    }
    if !ok {
      return false, 0;
    }
    if r != 0 {
      if q == 0xFFFF_FFFF_FFFF_FFFF {
        return false, 0;
      }
      q := q + 1;
    }
    return true, q;
  }

  // ------------------------------------------------------------------
  // Saturating helpers and the overflow latch
  // ------------------------------------------------------------------

  function SatAdd(a: u64, b: u64): (r: u64) {
    if a > MAX64 - b then MAX64 else a + b
  }

  function SatSub(a: u64, b: nat): (r: u64) {
    if b > a then 0 else a - b
  }

  ghost function Sum(s: seq<u64>): nat {
    if s == [] then 0 else Sum(s[..|s| - 1]) + s[|s| - 1]
  }

  lemma SumSnoc(s: seq<u64>, x: u64)
    ensures Sum(s + [x]) == Sum(s) + x
  {
    assert (s + [x])[..|s|] == s;
  }

  /** A running sum that remembers overflow. `added` is every value offered. */
  class SumLatch {
    var total: u64
    var overflow: bool
    ghost var added: seq<u64>

    ghost predicate Valid()
      reads this
    {
      (overflow <==> Sum(added) > MAX64) && (!overflow ==> total == Sum(added))
    }

    constructor ()
      ensures Valid() && added == []
    {
      total, overflow, added := 0, false, [];
    }

    /** Once the latch trips it stays tripped, whatever is added afterwards. */
    method Add(v: u64)
      requires Valid()
      modifies this
      ensures Valid() && added == old(added) + [v]
      ensures old(overflow) ==> overflow
    {
      SumSnoc(added, v);
      added := added + [v];
      if overflow {
        return;
      }
      if total > MAX64 - v {
        overflow := true;
      } else {
        total := total + v;
      }
    }

    function SaturatedTotal(): (r: u64)
      requires Valid()
      reads this
      ensures r == Min(Sum(added), MAX64)
    {
      if overflow then MAX64 else total
    }
  }
}
