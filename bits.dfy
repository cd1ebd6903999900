module Bits {
  /** Bitwise exclusive or of two naturals, bit by bit from the low end. */
  function Xor(a: nat, b: nat): nat
    decreases a + b
  {
    if a == 0 && b == 0 then 0 else 2 * Xor(a / 2, b / 2) + Bit(a % 2 != b % 2)
  }

  function Bit(p: bool): nat { if p then 1 else 0 }

  /** Bitwise and of two naturals. */
  function And(a: nat, b: nat): nat
    decreases a + b
  {
    if a == 0 && b == 0 then 0
    else 2 * And(a / 2, b / 2) + (if a % 2 == 1 && b % 2 == 1 then 1 else 0)
  }

  function Pow2(k: nat): nat
    ensures Pow2(k) >= 1
  {
    if k == 0 then 1 else 2 * Pow2(k - 1)
  }

  /** Logical shift right by `k` bits. */
  function Shr(a: nat, k: nat): nat
  {
    if k == 0 then a else Shr(a / 2, k - 1)
  }

  lemma XorUnfold(a: nat, b: nat)
    ensures Xor(a, b) == 2 * Xor(a / 2, b / 2) + Bit(a % 2 != b % 2)
  {}

  lemma XorHalf(a: nat, b: nat)
    ensures Xor(a, b) / 2 == Xor(a / 2, b / 2)
    ensures Xor(a, b) % 2 == Bit(a % 2 != b % 2)
  {
    XorUnfold(a, b);
  }

  lemma {:induction false} XorZero(a: nat)
    ensures Xor(a, 0) == a && Xor(0, a) == a
    decreases a
  {
    if a != 0 { XorZero(a / 2); }
  }

  lemma {:induction false} XorSelf(a: nat)
    ensures Xor(a, a) == 0
    decreases a
  {
    if a != 0 { XorSelf(a / 2); }
  }

  lemma {:induction false} XorComm(a: nat, b: nat)
    ensures Xor(a, b) == Xor(b, a)
    decreases a + b
  {
    if a != 0 || b != 0 { XorComm(a / 2, b / 2); }
  }

  lemma {:induction false} XorAssoc(a: nat, b: nat, c: nat)
    ensures Xor(Xor(a, b), c) == Xor(a, Xor(b, c))
    decreases a + b + c
  {
    if a != 0 || b != 0 || c != 0 {
      var ab, bc := Xor(a, b), Xor(b, c);
      XorAssoc(a / 2, b / 2, c / 2);
      XorHalf(a, b);
      XorHalf(b, c);
      XorUnfold(ab, c);
      XorUnfold(a, bc);
    }
  }

  lemma {:induction false} XorBelow(a: nat, b: nat, k: nat)
    requires a < Pow2(k) && b < Pow2(k)
    ensures Xor(a, b) < Pow2(k)
    decreases k
  {
    if k == 0 {
    } else {
      XorBelow(a / 2, b / 2, k - 1);
    }
  }

  lemma DivModTwice(a: nat, p: nat)
    requires p >= 1
    ensures a / (2 * p) == (a / 2) / p
    ensures a % (2 * p) == 2 * ((a / 2) % p) + a % 2
  {
    var q, r := (a / 2) / p, (a / 2) % p;
    assert a / 2 == p * q + r;
    assert a == 2 * p * q + (2 * r + a % 2);
    assert 0 <= 2 * r + a % 2 < 2 * p;
    DivModUnique(a, 2 * p, q, 2 * r + a % 2);
  }

  lemma DivModUnique(a: int, d: int, q: int, r: int)
    requires d >= 1 && 0 <= r < d && a == d * q + r
    ensures a / d == q && a % d == r
  {
    var q', r' := a / d, a % d;
    assert a == d * q' + r' && 0 <= r' < d;
    if q < q' {
      assert d * q' == d * q + d * (q' - q);
      MulMonotone(d, q' - q);
      assert false;
    } else if q > q' {
      assert d * q == d * q' + d * (q - q');
      MulMonotone(d, q - q');
      assert false;
    }
  }

  lemma {:induction false} MulMonotone(d: int, m: int)
    requires d >= 1 && m >= 1
    ensures d * m >= d
    decreases m
  {
    if m > 1 {
      MulMonotone(d, m - 1);
      assert d * m == d * (m - 1) + d;
    }
  }

  /** Shifting right by `k` bits divides by 2^k. */
  lemma {:induction false} ShrDiv(a: nat, k: nat)
    ensures Shr(a, k) == a / Pow2(k)
    decreases k
  {
    if k != 0 {
      ShrDiv(a / 2, k - 1);
      DivModTwice(a, Pow2(k - 1));
    }
  }

  lemma {:induction false} XorDivPow2(a: nat, b: nat, k: nat)
    ensures Shr(Xor(a, b), k) == Xor(Shr(a, k), Shr(b, k))
    decreases k
  {
    if k != 0 {
      XorDivPow2(a / 2, b / 2, k - 1);
      XorHalf(a, b);
    }
  }

  lemma {:induction false} XorModPow2(a: nat, b: nat, k: nat)
    ensures Xor(a, b) % Pow2(k) == Xor(a % Pow2(k), b % Pow2(k))
    decreases k
  {
    if k != 0 {
      var p := Pow2(k - 1);
      XorModPow2(a / 2, b / 2, k - 1);
      XorHalf(a, b);
      DivModTwice(a, p);
      DivModTwice(b, p);
      DivModTwice(Xor(a, b), p);
      var a', b' := a % (2 * p), b % (2 * p);
      assert a' / 2 == (a / 2) % p && a' % 2 == a % 2;
      assert b' / 2 == (b / 2) % p && b' % 2 == b % 2;
      XorUnfold(a', b');
    }
  }

  lemma XorDouble(x: nat, y: nat)
    ensures Xor(2 * x, 2 * y) == 2 * Xor(x, y)
  {
    XorUnfold(2 * x, 2 * y);
  }

  lemma XorLowBit(x: nat, r: nat)
    requires r < 2
    ensures Xor(2 * x, r) == 2 * x + r
  {
    assert (2 * x) / 2 == x && (2 * x) % 2 == 0;
    assert r / 2 == 0 && r % 2 == r;
    XorUnfold(2 * x, r);
    XorZero(x);
  }

  lemma {:induction false} AndZero(a: nat)
    ensures And(a, 0) == 0
    decreases a
  {
    if a != 0 { AndZero(a / 2); }
  }

  lemma AndOne(b: nat)
    ensures And(b, 1) == b % 2
  {
    AndZero(b / 2);
  }

  lemma {:induction false} AndPow2(a: nat, k: nat)
    ensures And(a, Pow2(k)) == if Shr(a, k) % 2 == 1 then Pow2(k) else 0
    decreases k
  {
    if k == 0 {
      AndOne(a);
    } else {
      var p := Pow2(k - 1);
      AndPow2(a / 2, k - 1);
      assert And(a, 2 * p) == 2 * And(a / 2, p);
    }
  }

  /** Setting bit k, above the low bits, in one operand sets it in the result. */
  lemma {:induction false} XorSetOne(la: nat, lb: nat, k: nat)
    requires la < Pow2(k) && lb < Pow2(k)
    ensures Xor(la + Pow2(k), lb) == Xor(la, lb) + Pow2(k)
    decreases k
  {
    if k == 0 {
      XorUnfold(la + 1, lb);
      XorZero(0);
      XorZero(1);
    } else {
      var q := Pow2(k - 1);
      XorSetOne(la / 2, lb / 2, k - 1);
      assert (la + 2 * q) / 2 == la / 2 + q;
      XorUnfold(la + 2 * q, lb);
      XorUnfold(la, lb);
    }
  }

  /** Setting bit k, above the low bits, in both operands leaves it clear in the result. */
  lemma {:induction false} XorSetBoth(la: nat, lb: nat, k: nat)
    requires la < Pow2(k) && lb < Pow2(k)
    ensures Xor(la + Pow2(k), lb + Pow2(k)) == Xor(la, lb)
    decreases k
  {
    if k == 0 {
      XorUnfold(la + 1, lb + 1);
      XorSelf(1);
    } else {
      var q := Pow2(k - 1);
      XorSetBoth(la / 2, lb / 2, k - 1);
      assert (la + 2 * q) / 2 == la / 2 + q;
      assert (lb + 2 * q) / 2 == lb / 2 + q;
      XorUnfold(la + 2 * q, lb + 2 * q);
      XorUnfold(la, lb);
    }
  }

  /** Splitting off bit k (p == 2^k), the top bit of two numbers below 2 * p. */
  lemma XorTopBit(a: nat, b: nat, p: nat, k: nat)
    requires p == Pow2(k) && a < 2 * p && b < 2 * p
    ensures Xor(a, b) == (if (a >= p) != (b >= p) then p else 0)
      + Xor(if a >= p then a - p else a, if b >= p then b - p else b)
  {
    var la, lb := if a >= p then a - p else a, if b >= p then b - p else b;
    if a >= p && b >= p {
      XorSetBoth(la, lb, k);
    } else if a >= p {
      XorSetOne(la, lb, k);
    } else if b >= p {
      XorSetOne(lb, la, k);
      XorComm(b, a);
      XorComm(lb, la);
    }
  }

  lemma Pow2Table()
    ensures Pow2(0) == 1 && Pow2(1) == 2 && Pow2(2) == 4 && Pow2(3) == 8
    ensures Pow2(4) == 16 && Pow2(5) == 32 && Pow2(6) == 64 && Pow2(7) == 128
    ensures Pow2(8) == 256
  {}

  /** XorTopBit for the bit positions of a byte. */
  lemma XorSplit(a: nat, b: nat, p: nat)
    requires p == 1 || p == 2 || p == 4 || p == 8 || p == 16 || p == 32 || p == 64 || p == 128
    requires a < 2 * p && b < 2 * p
    ensures Xor(a, b) == (if (a >= p) != (b >= p) then p else 0)
      + Xor(if a >= p then a - p else a, if b >= p then b - p else b)
  {
    Pow2Table();
    var k := if p == 1 then 0 else if p == 2 then 1 else if p == 4 then 2 else if p == 8 then 3
      else if p == 16 then 4 else if p == 32 then 5 else if p == 64 then 6 else 7;
    XorTopBit(a, b, p, k);
  }

  /*
   * Xor1 .. Xor8: exclusive or of two numbers below 2^k, taken bit by bit from the
   * top and written without recursion, so that the verifier can evaluate it on
   * constants.  XorStage<k> connects each stage to Xor.
   */

  function Xor1(a: nat, b: nat): nat
  {
    (if (a >= 1) != (b >= 1) then 1 else 0)
  }

  function Xor2(a: nat, b: nat): nat
  {
    (if (a >= 2) != (b >= 2) then 2 else 0)
      + Xor1(if a >= 2 then a - 2 else a, if b >= 2 then b - 2 else b)
  }

  function Xor3(a: nat, b: nat): nat
  {
    (if (a >= 4) != (b >= 4) then 4 else 0)
      + Xor2(if a >= 4 then a - 4 else a, if b >= 4 then b - 4 else b)
  }

  function Xor4(a: nat, b: nat): nat
  {
    (if (a >= 8) != (b >= 8) then 8 else 0)
      + Xor3(if a >= 8 then a - 8 else a, if b >= 8 then b - 8 else b)
  }

  function Xor5(a: nat, b: nat): nat
  {
    (if (a >= 16) != (b >= 16) then 16 else 0)
      + Xor4(if a >= 16 then a - 16 else a, if b >= 16 then b - 16 else b)
  }

  function Xor6(a: nat, b: nat): nat
  {
    (if (a >= 32) != (b >= 32) then 32 else 0)
      + Xor5(if a >= 32 then a - 32 else a, if b >= 32 then b - 32 else b)
  }

  function Xor7(a: nat, b: nat): nat
  {
    (if (a >= 64) != (b >= 64) then 64 else 0)
      + Xor6(if a >= 64 then a - 64 else a, if b >= 64 then b - 64 else b)
  }

  function Xor8(a: nat, b: nat): nat
  {
    (if (a >= 128) != (b >= 128) then 128 else 0)
      + Xor7(if a >= 128 then a - 128 else a, if b >= 128 then b - 128 else b)
  }

  lemma XorStage1(a: nat, b: nat)
    requires a < 2 && b < 2
    ensures Xor1(a, b) == Xor(a, b)
  {
    XorSplit(a, b, 1);
    XorZero(0);
  }

  lemma XorStage2(a: nat, b: nat)
    requires a < 4 && b < 4
    ensures Xor2(a, b) == Xor(a, b)
  {
    XorSplit(a, b, 2);
    XorStage1(if a >= 2 then a - 2 else a, if b >= 2 then b - 2 else b);
  }

  lemma XorStage3(a: nat, b: nat)
    requires a < 8 && b < 8
    ensures Xor3(a, b) == Xor(a, b)
  {
    XorSplit(a, b, 4);
    XorStage2(if a >= 4 then a - 4 else a, if b >= 4 then b - 4 else b);
  }

  lemma XorStage4(a: nat, b: nat)
    requires a < 16 && b < 16
    ensures Xor4(a, b) == Xor(a, b)
  {
    XorSplit(a, b, 8);
    XorStage3(if a >= 8 then a - 8 else a, if b >= 8 then b - 8 else b);
  }

  lemma XorStage5(a: nat, b: nat)
    requires a < 32 && b < 32
    ensures Xor5(a, b) == Xor(a, b)
  {
    XorSplit(a, b, 16);
    XorStage4(if a >= 16 then a - 16 else a, if b >= 16 then b - 16 else b);
  }

  lemma XorStage6(a: nat, b: nat)
    requires a < 64 && b < 64
    ensures Xor6(a, b) == Xor(a, b)
  {
    XorSplit(a, b, 32);
    XorStage5(if a >= 32 then a - 32 else a, if b >= 32 then b - 32 else b);
  }

  lemma XorStage7(a: nat, b: nat)
    requires a < 128 && b < 128
    ensures Xor7(a, b) == Xor(a, b)
  {
    XorSplit(a, b, 64);
    XorStage6(if a >= 64 then a - 64 else a, if b >= 64 then b - 64 else b);
  }

  lemma XorStage8(a: nat, b: nat)
    requires a < 256 && b < 256
    ensures Xor8(a, b) == Xor(a, b)
  {
    XorSplit(a, b, 128);
    XorStage7(if a >= 128 then a - 128 else a, if b >= 128 then b - 128 else b);
  }
}
