module GaloisField {
  import opened Bits

  /** The value range of a Rust `u8`. */
  type Byte = x: int | 0 <= x < 256

  lemma XorByte(a: Byte, b: Byte)
    ensures Xor(a, b) < 256
  {
    Pow2Table();
    XorBelow(a, b, 8);
  }

  /** Addition in GF(2^8): bitwise exclusive or of the two bytes. */
  function Add(a: Byte, b: Byte): Byte
  {
    XorByte(a, b);
    Xor(a, b)
  }


  /**
   * Multiplication by x (the `xtime` step of FIPS-197 section 4.2.1): shift left;
   * when bit 7 was set, drop bit 8 and add the reduction polynomial
   * x^8 + x^4 + x^3 + x + 1, whose low byte is 0x1b.
   */
  function XTime(a: Byte): Byte
  {
    if a >= 0x80 then Add(2 * a - 0x100, 0x1b) else 2 * a
  }

  /** `a` when bit 0 of `b` is set, otherwise 0. */
  function Pick(b: Byte, a: Byte): Byte
  {
    if b % 2 == 1 then a else 0
  }

  /**
   * The product of FIPS-197 section 4.2, written as repeated xtime: the sum over the
   * set bits k of `b` of xtime applied k times to `a`.
   */
  function Product(a: Byte, b: Byte): Byte
    decreases b
  {
    if b == 0 then 0 else Add(Pick(b, a), Product(XTime(a), b / 2))
  }

  lemma ProductUnfold(a: Byte, b: Byte)
    ensures Product(a, b) == Add(Pick(b, a), Product(XTime(a), b / 2))
  {
    if b == 0 {
      XorZero(0);
    }
  }

  lemma AddSwap(a: Byte, b: Byte, c: Byte, d: Byte)
    ensures Add(Add(a, b), Add(c, d)) == Add(Add(a, c), Add(b, d))
  {
    XorByte(a, b);
    XorByte(c, d);
    XorByte(b, d);
    XorByte(a, c);
    XorByte(b, c);
    XorAssoc(a, b, Xor(c, d));
    XorAssoc(b, c, d);
    XorComm(b, c);
    XorAssoc(c, b, d);
    XorAssoc(a, c, Xor(b, d));
  }

  /** xtime splits into the shifted low seven bits and the conditional reduction. */
  lemma XTimeSplit(u: Byte)
    ensures XTime(u) == Xor(2 * (u % 128), if u >= 128 then 0x1b else 0)
  {
    var low := 2 * (u % 128);
    if u >= 128 {
      assert 2 * u - 0x100 == low;
    } else {
      assert 2 * u == low;
      XorZero(low);
    }
  }

  lemma XorHighLow(u: Byte, v: Byte)
    ensures Xor(u, v) / 128 == Xor(u / 128, v / 128)
    ensures Xor(u, v) % 128 == Xor(u % 128, v % 128)
  {
    Pow2Table();
    XorDivPow2(u, v, 7);
    XorModPow2(u, v, 7);
    ShrDiv(u, 7);
    ShrDiv(v, 7);
    ShrDiv(Xor(u, v), 7);
  }

  lemma XTimeLinear(u: Byte, v: Byte)
    ensures XTime(Add(u, v)) == Add(XTime(u), XTime(v))
  {
    var w := Add(u, v);
    XorHighLow(u, v);
    XTimeSplit(u);
    XTimeSplit(v);
    XTimeSplit(w);
    var lu, lv := 2 * (u % 128), 2 * (v % 128);
    var ru: Byte := if u >= 128 then 0x1b else 0;
    var rv: Byte := if v >= 128 then 0x1b else 0;
    var rw: Byte := if w >= 128 then 0x1b else 0;
    XorDouble(u % 128, v % 128);
    assert 2 * (w % 128) == Xor(lu, lv);
    assert rw == Xor(ru, rv) by {
      assert w / 128 == Xor(u / 128, v / 128);
      XorZero(0);
      XorZero(0x1b);
      XorSelf(0x1b);
      XorSelf(1);
      XorZero(1);
    }
    AddSwap(lu, lv, ru, rv);
  }

  lemma AddZero(a: Byte)
    ensures Add(a, 0) == a && Add(0, a) == a
  {
    XorZero(a);
  }

  lemma AddComm(a: Byte, b: Byte)
    ensures Add(a, b) == Add(b, a)
  {
    XorComm(a, b);
  }

  lemma AddAssoc(a: Byte, b: Byte, c: Byte)
    ensures Add(Add(a, b), c) == Add(a, Add(b, c))
  {
    XorAssoc(a, b, c);
  }

  lemma AddSelf(a: Byte)
    ensures Add(a, a) == 0
  {
    XorSelf(a);
  }

  lemma {:induction false} ProductXTime(a: Byte, c: Byte)
    ensures Product(XTime(a), c) == XTime(Product(a, c))
    decreases c
  {
    if c != 0 {
      ProductXTime(XTime(a), c / 2);
      var s, t := Pick(c, a), Product(XTime(a), c / 2);
      assert Pick(c, XTime(a)) == XTime(s) by {
        assert XTime(0) == 0;
      }
      XTimeLinear(s, t);
    }
  }

  lemma {:induction false} ProductZeroLeft(c: Byte)
    ensures Product(0, c) == 0
    decreases c
  {
    if c != 0 {
      ProductZeroLeft(c / 2);
      AddZero(0);
    }
  }

  /** A byte is xtime of its upper seven bits plus its lowest bit. */
  lemma HalfDouble(c: Byte)
    ensures Add(XTime(c / 2), c % 2) == c
  {
    XorLowBit(c / 2, c % 2);
  }

  lemma {:induction false} ProductOneLeft(c: Byte)
    ensures Product(1, c) == c
    decreases c
  {
    if c != 0 {
      ProductOneLeft(c / 2);
      ProductXTime(1, c / 2);
      HalfDouble(c);
      AddComm(Pick(c, 1), XTime(c / 2));
    }
  }

  lemma ProductOneRight(a: Byte)
    ensures Product(a, 1) == a
  {
    AddZero(a);
  }

  lemma {:induction false} ProductLinearLeft(a1: Byte, a2: Byte, b: Byte)
    ensures Product(Add(a1, a2), b) == Add(Product(a1, b), Product(a2, b))
    decreases b
  {
    if b != 0 {
      XTimeLinear(a1, a2);
      ProductLinearLeft(XTime(a1), XTime(a2), b / 2);
      AddZero(0);
      AddSwap(Pick(b, a1), Pick(b, a2), Product(XTime(a1), b / 2), Product(XTime(a2), b / 2));
    } else {
      AddZero(0);
    }
  }

  lemma ProductPickLeft(b: Byte, a: Byte)
    ensures Product(Pick(b, a), 0) == 0
    ensures Product(b % 2, a) == Pick(b, a)
  {
    ProductZeroLeft(a);
    ProductOneLeft(a);
  }

  lemma {:induction false} ProductComm(a: Byte, b: Byte)
    ensures Product(a, b) == Product(b, a)
    decreases b
  {
    ProductZeroLeft(a);
    if b != 0 {
      ProductXTime(a, b / 2);
      ProductComm(a, b / 2);
      ProductXTime(b / 2, a);
      HalfDouble(b);
      ProductLinearLeft(XTime(b / 2), b % 2, a);
      ProductPickLeft(b, a);
      AddComm(Pick(b, a), Product(XTime(b / 2), a));
    }
  }

  lemma ProductLinearRight(a: Byte, b1: Byte, b2: Byte)
    ensures Product(a, Add(b1, b2)) == Add(Product(a, b1), Product(a, b2))
  {
    ProductComm(a, Add(b1, b2));
    ProductLinearLeft(b1, b2, a);
    ProductComm(b1, a);
    ProductComm(b2, a);
  }

  lemma ProductPick(b: Byte, a: Byte, c: Byte)
    ensures Product(Pick(b, a), c) == Product(a, Pick(b, c))
  {
    ProductZeroLeft(c);
  }

  lemma {:induction false} ProductAssoc(a: Byte, b: Byte, c: Byte)
    ensures Product(Product(a, b), c) == Product(a, Product(b, c))
    decreases b
  {
    ProductZeroLeft(c);
    if b != 0 {
      var w := Product(b / 2, c);
      ProductLinearLeft(Pick(b, a), Product(XTime(a), b / 2), c);
      ProductAssoc(XTime(a), b / 2, c);
      ProductXTime(a, w);
      HalfDouble(b);
      ProductLinearLeft(XTime(b / 2), b % 2, c);
      ProductXTime(b / 2, c);
      ProductPickLeft(b, c);
      ProductLinearRight(a, XTime(w), Pick(b, c));
      ProductComm(a, XTime(w));
      ProductXTime(w, a);
      ProductComm(w, a);
      ProductPick(b, a, c);
      AddComm(Product(Pick(b, a), c), XTime(Product(a, w)));
    }
  }

  /** xtime written with the non-recursive Xor8, for evaluation on constants. */
  function XTimeEval(a: Byte): nat
  {
    if a >= 0x80 then Xor8(2 * a - 0x100, 0x1b) else 2 * a
  }

  /** Addition equals the non-recursive Xor8 on bytes. */
  lemma AddEval(a: Byte, b: Byte)
    ensures Add(a, b) == Xor8(a, b)
  {
    XorStage8(a, b);
  }

  /** Multiplication by 3 (x + 1) is e + xtime(e). */
  lemma ProductThree(e: Byte)
    ensures Product(e, 3) == Xor8(e, XTimeEval(e))
  {
    var x := XTime(e);
    AddZero(x);
    assert Product(XTime(x), 0) == 0;
    assert Product(x, 1) == x;
    AddEval(e, x);
    if e >= 0x80 {
      AddEval(2 * e - 0x100, 0x1b);
    }
  }

  /** g raised to the n-th power in GF(2^8). */
  function Power(g: Byte, n: nat): Byte
  {
    if n == 0 then 1 else Product(Power(g, n - 1), g)
  }

  lemma {:induction false} PowerAdd(g: Byte, m: nat, n: nat)
    ensures Product(Power(g, m), Power(g, n)) == Power(g, m + n)
    decreases n
  {
    if n == 0 {
      ProductOneRight(Power(g, m));
    } else {
      PowerAdd(g, m, n - 1);
      ProductAssoc(Power(g, m), Power(g, n - 1), g);
    }
  }
}
