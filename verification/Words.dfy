/** 64-bit machine words: single-bit rotation and its iterates, the unsigned
    value of a word, and what a mask of low bits says about that value. All
    shifts are by literals, so every bit-level step is decided by the solver
    and everything above it is induction over natural numbers. */
module Words {
  type Word = bv64

  const BITS: nat := 64

  function And(a: Word, b: Word): Word {
    a & b
  }

  function Xor(a: Word, b: Word): Word {
    a ^ b
  }

  /* ---- rotation ---- */

  function Rot1(w: Word): Word {
    (w << 1) | (w >> 63)
  }

  /** `bits.RotateLeft64(w, n)` for a non-negative n. */
  function Rot(w: Word, n: nat): Word {
    if n == 0 then w else Rot1(Rot(w, n - 1))
  }

  lemma {:induction false} RotXor(a: Word, b: Word, n: nat)
    ensures Rot(Xor(a, b), n) == Xor(Rot(a, n), Rot(b, n))
  {
    hide Rot1, Xor;
    if n > 0 {
      RotXor(a, b, n - 1);
      Rot1Xor(Rot(a, n - 1), Rot(b, n - 1));
    }
  }

  lemma Rot1Xor(a: Word, b: Word)
    ensures Rot1(Xor(a, b)) == Xor(Rot1(a), Rot1(b))
  {}

  lemma {:induction false} RotAdd(w: Word, m: nat, n: nat)
    ensures Rot(Rot(w, m), n) == Rot(w, m + n)
  {
    if n > 0 {
      RotAdd(w, m, n - 1);
    }
  }

  lemma Rot8(w: Word)
    ensures Rot(w, 8) == (w << 8) | (w >> 56)
  {
    var w4 := Rot(w, 4);
    assert w4 == Rot1(Rot1(Rot1(Rot1(w)))) by {
      assert Rot(w, 1) == Rot1(w);
      assert Rot(w, 2) == Rot1(Rot(w, 1));
      assert Rot(w, 3) == Rot1(Rot(w, 2));
    }
    assert Rot(w, 5) == Rot1(w4);
    assert Rot(w, 6) == Rot1(Rot(w, 5));
    assert Rot(w, 7) == Rot1(Rot(w, 6));
  }

  lemma Rot16(w: Word)
    ensures Rot(w, 16) == (w << 16) | (w >> 48)
  {
    Rot8(w); Rot8(Rot(w, 8)); RotAdd(w, 8, 8);
    hide Rot;
  }

  lemma Rot32(w: Word)
    ensures Rot(w, 32) == (w << 32) | (w >> 32)
  {
    Rot16(w); Rot16(Rot(w, 16)); RotAdd(w, 16, 16);
    hide Rot;
  }

  lemma Rot64(w: Word)
    ensures Rot(w, 64) == w
  {
    Rot32(w); Rot32(Rot(w, 32)); RotAdd(w, 32, 32);
    hide Rot;
  }

  /** A rotation amount matters only modulo the word size: rotating by
      `Window%64` is rotating by `Window`. */
  lemma {:induction false} RotPeriodic(w: Word, n: nat)
    ensures Rot(w, n % 64) == Rot(w, n)
  {
    if n >= 64 {
      RotPeriodic(w, n - 64);
      RotAdd(w, 64, n - 64);
      Rot64(w);
    }
  }

  /* ---- unsigned value ---- */

  function Pow2(k: nat): nat
    ensures Pow2(k) >= 1
  {
    if k == 0 then 1 else 2 * Pow2(k - 1)
  }

  predicate Odd(w: Word) {
    w & 1 == 1
  }

  function Half(w: Word): Word {
    w >> 1
  }

  /** w shifted left by one place, with `bit` brought in at the bottom. */
  function Push(w: Word, bit: bool): Word {
    if bit then Push1(w) else Push0(w)
  }

  function Push1(w: Word): Word {
    (w << 1) | 1
  }

  function Push0(w: Word): Word {
    w << 1
  }

  predicate TopClear(w: Word) {
    w & 0x8000_0000_0000_0000 == 0
  }

  /** The value of the low n bits of w. */
  function Low(w: Word, n: nat): nat {
    if n == 0 then 0 else (if Odd(w) then 1 else 0) + 2 * Low(Half(w), n - 1)
  }

  /** The unsigned integer a word stands for. */
  function Value(w: Word): nat {
    Low(w, BITS)
  }

  /** The word holding n; the bits beyond the sixty-fourth are lost. */
  function OfNat(n: nat): Word {
    if n == 0 then 0 else Push(OfNat(n / 2), n % 2 == 1)
  }

  /** The word whose low k bits are set. */
  function Mask(k: nat): Word {
    if k == 0 then 0 else Push(Mask(k - 1), true)
  }

  lemma PushFour(m: Word)
    ensures Push(Push(Push(Push(m, true), true), true), true) == (m << 4) | 0xF
  {}

  lemma Mask4(k: nat)
    ensures Mask(k + 4) == (Mask(k) << 4) | 0xF
  {
    PushFour(Mask(k));
    assert Mask(k + 1) == Push(Mask(k), true);
    assert Mask(k + 2) == Push(Mask(k + 1), true);
    assert Mask(k + 3) == Push(Mask(k + 2), true);
    assert Mask(k + 4) == Push(Mask(k + 3), true);
  }

  lemma Mask16(k: nat)
    ensures Mask(k + 16) == (Mask(k) << 16) | 0xFFFF
  {
    Mask4(k); Mask4(k + 4); Mask4(k + 8); Mask4(k + 12);
    Join16(Mask(k));
  }

  lemma Join16(m: Word)
    ensures (((((((m << 4) | 0xF) << 4) | 0xF) << 4) | 0xF) << 4) | 0xF == (m << 16) | 0xFFFF
  {}

  lemma Mask63()
    ensures Mask(63) == 0x7FFF_FFFF_FFFF_FFFF
  {
    assert Mask(3) == 0x7 by {
      assert Mask(1) == 1;
      assert Mask(2) == 3;
    }
    Mask4(3); Mask4(7); Mask4(11);
    assert Mask(15) == 0x7FFF;
    Mask16(15); Mask16(31); Mask16(47);
  }

  lemma {:induction false} MaskAt(j: nat, k: nat)
    requires j <= k
    ensures Within(Mask(j), Mask(k))
  {
    if j == 0 {
      ZeroAnd(Mask(k));
    } else {
      MaskAt(j - 1, k - 1);
      hide Push, Within;
      PushWithin(Mask(j - 1), Mask(k - 1), true);
    }
  }

  lemma ZeroAnd(m: Word)
    ensures Within(0, m)
  {}

  lemma MaskTop(k: nat)
    requires k < BITS
    ensures TopClear(Mask(k))
  {
    MaskAt(k, 63);
    Mask63();
    BelowTop(Mask(k));
  }

  lemma BelowTop(w: Word)
    requires Within(w, 0x7FFF_FFFF_FFFF_FFFF)
    ensures TopClear(w)
  {}

  predicate Clears(w: Word, m: Word) {
    And(w, m) == 0
  }

  predicate Divides(d: nat, n: nat)
    requires d >= 1
  {
    n % d == 0
  }

  /** Masking with the low k bits yields zero exactly when 2^k divides the value. */
  lemma {:induction false} MaskDivides(w: Word, k: nat, n: nat)
    requires k <= n && k < BITS
    ensures Clears(w, Mask(k)) <==> Divides(Pow2(k), Low(w, n))
  {
    if k == 0 {
      ClearsNothing(w);
      assert Pow2(0) == 1;
      assert Divides(1, Low(w, n));
    } else {
      hide Push, Half, Odd, TopClear, Clears, Divides;
      MaskDivides(Half(w), k - 1, n - 1);
      MaskTop(k - 1);
      MaskStep(w, Mask(k - 1));
      DoubleMod(Low(Half(w), n - 1), if Odd(w) then 1 else 0, Pow2(k - 1));
    }
  }

  lemma ClearsNothing(w: Word)
    ensures Clears(w, 0)
  {}

  lemma MaskStep(w: Word, m: Word)
    requires TopClear(m)
    ensures Clears(w, Push(m, true)) <==> !Odd(w) && Clears(Half(w), m)
  {
    hide Half, Odd, Push, And, TopClear;
    HalfAnd(w, m);
    OddAnd(w, m);
    ZeroSplit(And(w, Push(m, true)));
  }

  lemma HalfAnd(w: Word, m: Word)
    requires TopClear(m)
    ensures Half(And(w, Push(m, true))) == And(Half(w), m)
  {}

  lemma OddAnd(w: Word, m: Word)
    ensures Odd(And(w, Push(m, true))) == Odd(w)
  {}

  lemma ZeroSplit(z: Word)
    ensures z == 0 <==> Half(z) == 0 && !Odd(z)
  {}

  lemma DoubleMod(h: nat, bit: nat, p: nat)
    requires p >= 1 && bit <= 1
    ensures Divides(2 * p, bit + 2 * h) <==> bit == 0 && Divides(p, h)
  {
    var q, r := h / p, h % p;
    assert h == q * p + r;
    assert bit + 2 * h == q * (2 * p) + (bit + 2 * r);
    ModUnique(bit + 2 * h, 2 * p, q, bit + 2 * r);
  }

  lemma ModUnique(x: nat, m: nat, q: nat, r: nat)
    requires m >= 1 && r < m && x == q * m + r
    ensures x % m == r
  {
    var d := x / m - q;
    assert d * m == r - x % m;
    MulApart(d, m);
  }

  lemma MulApart(d: int, m: int)
    requires m >= 0
    ensures d >= 1 ==> d * m >= m
    ensures d <= -1 ==> d * m <= -m
  {}

  lemma {:induction false} OfNatBound(n: nat, b: nat)
    requires n < Pow2(b)
    ensures Within(OfNat(n), Mask(b))
  {
    if n == 0 {
      ZeroAnd(Mask(b));
    } else {
      hide Push, Within;
      OfNatBound(n / 2, b - 1);
      PushWithin(OfNat(n / 2), Mask(b - 1), n % 2 == 1);
    }
  }

  predicate Within(w: Word, m: Word) {
    And(w, m) == w
  }

  lemma PushWithin(w: Word, m: Word, bit: bool)
    requires Within(w, m)
    ensures Within(Push(w, bit), Push(m, true))
  {
    hide Push, And;
    PushAnd(w, m, bit);
  }

  lemma PushAnd(w: Word, m: Word, bit: bool)
    ensures And(Push(w, bit), Push(m, true)) == Push(And(w, m), bit)
  {
    hide Push1, Push0, And;
    PushAnd1(w, m);
    PushAnd0(w, m);
  }

  lemma PushAnd1(w: Word, m: Word)
    ensures And(Push1(w), Push1(m)) == Push1(And(w, m))
  {}

  lemma PushAnd0(w: Word, m: Word)
    ensures And(Push0(w), Push1(m)) == Push0(And(w, m))
  {}

  lemma OfNatTop(n: nat, b: nat)
    requires n < Pow2(b) && b < BITS
    ensures TopClear(OfNat(n))
  {
    OfNatBound(n, b);
    MaskTop(b);
    TopAnd(OfNat(n), Mask(b));
  }

  lemma TopAnd(w: Word, m: Word)
    requires TopClear(m) && Within(w, m)
    ensures TopClear(w)
  {}

  /** `OfNat` is exact on everything that fits in b bits. */
  lemma {:induction false} OfNatLow(n: nat, b: nat)
    requires n < Pow2(b) && b <= BITS
    ensures Low(OfNat(n), b) == n
  {
    if b > 0 {
      OfNatLow(n / 2, b - 1);
      OfNatTop(n / 2, b - 1);
      ShiftOut(OfNat(n / 2), n % 2 == 1);
      if n == 0 {
        assert OfNat(0) == 0;
      }
      ZeroPush();
      assert OfNat(n) == Push(OfNat(n / 2), n % 2 == 1);
    }
  }

  lemma ZeroPush()
    ensures Push(0, false) == 0
  {}

  lemma ShiftOut(x: Word, bit: bool)
    requires TopClear(x)
    ensures Half(Push(x, bit)) == x && Odd(Push(x, bit)) == bit
  {}

  /* ---- the power-of-two test ---- */

  ghost predicate IsPow2(t: nat) {
    exists k: nat :: t == Pow2(k)
  }

  /** `t & (t-1) == 0` is the power-of-two test, for every t a 63-bit int holds. */
  lemma {:induction false} PowerOfTwoTest(t: nat, b: nat)
    requires 1 <= t < Pow2(b) && b < BITS
    ensures Clears(OfNat(t), OfNat(t - 1)) <==> IsPow2(t)
  {
    if t == 1 {
      ClearsNothing(OfNat(1));
      assert t == Pow2(0);
    } else {
      hide Push, TopClear, Clears;
      var h := t / 2;
      OfNatTop(h, b - 1);
      if t % 2 == 1 {
        assert (t - 1) / 2 == h && (t - 1) % 2 == 0;
        NonZero(h, b - 1);
        OddNeverClears(OfNat(h));
        OddNotPow2(t);
      } else {
        assert (t - 1) / 2 == h - 1 && (t - 1) % 2 == 1;
        PowerOfTwoTest(h, b - 1);
        EvenClears(OfNat(h), OfNat(h - 1));
        HalfPow2(h);
      }
    }
  }

  lemma OddNeverClears(x: Word)
    requires TopClear(x) && x != 0
    ensures !Clears(Push(x, true), Push(x, false))
  {}

  lemma EvenClears(x: Word, y: Word)
    requires TopClear(x)
    ensures Clears(Push(x, false), Push(y, true)) <==> Clears(x, y)
  {}

  lemma OddNotPow2(t: nat)
    requires t > 1 && t % 2 == 1
    ensures !IsPow2(t)
  {
    forall k: nat
      ensures t != Pow2(k)
    {
      if k > 0 {
        assert Pow2(k) == 2 * Pow2(k - 1);
      }
    }
  }

  lemma HalfPow2(h: nat)
    requires h >= 1
    ensures IsPow2(2 * h) <==> IsPow2(h)
  {
    if k: nat :| h == Pow2(k) {
      assert 2 * h == Pow2(k + 1);
    }
    if k: nat :| 2 * h == Pow2(k) {
      assert h == Pow2(k - 1);
    }
  }

  lemma NonZero(n: nat, b: nat)
    requires 1 <= n < Pow2(b) && b < BITS
    ensures OfNat(n) != 0
  {
    OfNatLow(n, b);
    LowZero(b);
  }

  lemma {:induction false} LowZero(b: nat)
    ensures Low(0, b) == 0
  {
    if b > 0 {
      assert Half(0) == 0 && !Odd(0);
      LowZero(b - 1);
    }
  }

  /** For a power of two t, `w & (t-1) == 0` says that t divides the value of w. */
  lemma MaskIsModulus(w: Word, t: nat)
    requires 1 <= t < Pow2(63) && IsPow2(t)
    ensures Clears(w, OfNat(t - 1)) <==> Divides(t, Value(w))
  {
    var k: nat :| t == Pow2(k);
    if k >= 63 {
      Pow2Mono(63, k);
      assert false;
    }
    LowMask(k);
    MaskDivides(w, k, BITS);
  }

  lemma {:induction false} Pow2Mono(a: nat, b: nat)
    requires a <= b
    ensures Pow2(a) <= Pow2(b)
  {
    if a < b {
      Pow2Mono(a, b - 1);
    }
  }

  lemma {:induction false} LowMask(k: nat)
    ensures OfNat(Pow2(k) - 1) == Mask(k)
  {
    if k > 0 {
      LowMask(k - 1);
      var n := Pow2(k) - 1;
      assert n / 2 == Pow2(k - 1) - 1 && n % 2 == 1;
    }
  }
}
