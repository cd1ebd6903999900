/**
 * The `GF256` value type of the calculator and the three routines behind its operators:
 * the shift-and-reduce multiply `gmul`, the brute-force inverse table `ginv`, and the
 * operator impls that combine them.
 */
module Gf256 {
  import opened Bits
  import opened GaloisField
  import Generator

  // ---------------------------------------------------------------------------------
  // gmul
  // ---------------------------------------------------------------------------------

  /** One round of the multiply loop keeps `r + a * b` equal to the product asked for. */
  lemma GmulRound(r: Byte, a: Byte, b: Byte)
    ensures Add(Add(r, Pick(b, a)), Product(XTime(a), b / 2)) == Add(r, Product(a, b))
  {
    ProductUnfold(a, b);
    AddAssoc(r, Pick(b, a), Product(XTime(a), b / 2));
  }

  /** The two byte tests of the loop body: bit 0 of `b` and bit 7 of `a`. */
  lemma GmulTests(a: Byte, b: Byte)
    ensures And(b, 1) == 1 <==> b % 2 == 1
    ensures And(a, 0x80) == 0x80 <==> a >= 0x80
  {
    AndOne(b);
    Pow2Table();
    AndPow2(a, 7);
    ShrDiv(a, 7);
  }

  /** The conditional exclusive or of the loop body adds `a` exactly when bit 0 of `b` is set. */
  lemma GmulAccumulate(r: Byte, a: Byte, b: Byte, r1: nat)
    requires r1 == (if b % 2 == 1 then Xor(r, a) else r)
    ensures r1 == Add(r, Pick(b, a))
  {
    if b % 2 != 1 {
      AddZero(r);
    }
  }

  /** The shift of the loop body, with its conditional reduction, is one xtime step. */
  lemma GmulShift(a: Byte, a1: nat)
    requires a1 == (if a >= 0x80 then Xor(2 * a - 0x100, 0x1b) else 2 * a)
    ensures a1 == XTime(a)
  {
  }

  /**
   * The multiply of src/main.rs: eight rounds that add `a` into `r` when the low bit of
   * `b` is set, then advance `a` by one xtime step (shift, and on overflow subtract 0x100
   * and add 0x1b) and shift `b` right. The integers are unbounded here; the loop
   * invariant shows that `a` and `r` never leave 0..255, so the range check after the
   * loop never panics.
   */
  method Gmul(x: Byte, y: Byte) returns (p: Byte)
    ensures p == Product(x, y)
  {
    var r: nat := 0;
    var a: nat := x;
    var b: nat := y;
    Pow2Table();
    AddZero(Product(x, y));
    for i := 0 to 8
      invariant a < 256 && r < 256 && b < Pow2(8 - i)
      invariant Add(r, Product(a, b)) == Product(x, y)
    {
      ghost var r0, a0, b0 := r, a, b;
      GmulTests(a, b);
      if And(b, 1) == 1 {
        r := Xor(r, a);
      }
      GmulAccumulate(r0, a0, b0, r);
      var hi := And(a, 0x80);
      a := a * 2;
      if hi == 0x80 {
        a := a - 0x100;
        a := Xor(a, 0x1b);
      }
      GmulShift(a0, a);
      b := b / 2;
      GmulRound(r0, a0, b0);
    }
    AddZero(r);
    if 0xff < r {
      assert false;
    }
    p := r;
  }

  /** xtime of a literal byte, evaluated without unfolding the recursive exclusive or. */
  lemma XTimeEvaluates(a: Byte)
    ensures XTime(a) == XTimeEval(a)
  {
    if a >= 0x80 {
      AddEval(2 * a - 0x100, 0x1b);
    }
  }

  /** One xtime step of a product: `a * b == (b odd ? a : 0) + xtime(a) * (b / 2)`. */
  lemma ProductStep(a: Byte, b: Byte, rest: Byte)
    requires b != 0 && Product(XTime(a), b / 2) == rest
    ensures Product(a, b) == Xor8(if b % 2 == 1 then a else 0, rest)
  {
    ProductUnfold(a, b);
    AddEval(Pick(b, a), rest);
  }

  lemma FipsStep7(a: Byte, b: Byte)
    requires a == 0x38 && b == 1
    ensures Product(a, b) == 0x38
  {
    assert Product(XTime(a), 0) == 0;
    ProductStep(a, b, 0);
  }

  lemma FipsStep6(a: Byte, b: Byte)
    requires a == 0x1c && b == 2
    ensures Product(a, b) == 0x38
  {
    XTimeEvaluates(a);
    FipsStep7(XTime(a), b / 2);
    ProductStep(a, b, 0x38);
  }

  lemma FipsStep5(a: Byte, b: Byte)
    requires a == 0x0e && b == 4
    ensures Product(a, b) == 0x38
  {
    XTimeEvaluates(a);
    FipsStep6(XTime(a), b / 2);
    ProductStep(a, b, 0x38);
  }

  lemma FipsStep4(a: Byte, b: Byte)
    requires a == 0x07 && b == 8
    ensures Product(a, b) == 0x38
  {
    XTimeEvaluates(a);
    FipsStep5(XTime(a), b / 2);
    ProductStep(a, b, 0x38);
  }

  lemma FipsStep3(a: Byte, b: Byte)
    requires a == 0x8e && b == 16
    ensures Product(a, b) == 0x38
  {
    XTimeEvaluates(a);
    FipsStep4(XTime(a), b / 2);
    ProductStep(a, b, 0x38);
  }

  lemma FipsStep2(a: Byte, b: Byte)
    requires a == 0x47 && b == 32
    ensures Product(a, b) == 0x38
  {
    XTimeEvaluates(a);
    FipsStep3(XTime(a), b / 2);
    ProductStep(a, b, 0x38);
  }

  lemma FipsStep1(a: Byte, b: Byte)
    requires a == 0xae && b == 65
    ensures Product(a, b) == 0x96
  {
    XTimeEvaluates(a);
    FipsStep2(XTime(a), b / 2);
    ProductStep(a, b, 0x38);
  }

  /**
   * The worked example of section 4.2 of FIPS-197: {57} * {83} = {c1}. The operands are
   * parameters fixed by the requires clause, so the proof walks the eight xtime steps
   * 57, ae, 47, 8e, 07, 0e, 1c, 38 one lemma at a time.
   */
  lemma FipsExample(a: Byte, b: Byte)
    requires a == 0x57 && b == 0x83
    ensures Product(a, b) == 0xc1
  {
    XTimeEvaluates(a);
    FipsStep1(XTime(a), b / 2);
    ProductStep(a, b, 0x96);
  }

  // ---------------------------------------------------------------------------------
  // The inverse table
  // ---------------------------------------------------------------------------------

  /** The first `j` in `from..255` whose product with `x` is 1, or 0 when there is none. */
  function FindInverse(x: Byte, from: nat): Byte
    requires 1 <= from <= 256
    decreases 256 - from
  {
    if from == 256 then 0
    else if Product(x, from) == 1 then from
    else FindInverse(x, from + 1)
  }

  lemma {:induction false} FindInverseSpec(x: Byte, from: nat)
    requires 1 <= from <= 256
    ensures var j := FindInverse(x, from);
      (j == 0 && forall k :: from <= k < 256 ==> Product(x, k) != 1)
      || (from <= j < 256 && Product(x, j) == 1)
    decreases 256 - from
  {
    if from < 256 && Product(x, from) != 1 {
      FindInverseSpec(x, from + 1);
    }
  }

  /** The multiplicative inverse of `x`, and 0 for 0: the entry `ginv` leaves at `x`. */
  function Inverse(x: Byte): Byte
  {
    FindInverse(x, 1)
  }

  /** A byte has at most one inverse. */
  lemma InverseUnique(x: Byte, y: Byte)
    requires Product(x, y) == 1
    ensures y == Inverse(x) && x != 0
  {
    ProductZeroLeft(y);
    FindInverseSpec(x, 1);
    var z := Inverse(x);
    ProductComm(x, 0);
    assert y != 0;
    assert Product(x, z) == 1;
    ProductAssoc(z, x, y);
    ProductComm(z, x);
    ProductOneLeft(y);
    ProductOneRight(z);
  }

  /**
   * 0 has no inverse; its table entry stays 0. The byte 0 is passed as `x` (fixed by the
   * requires) rather than written as a literal, so that the verifier does not evaluate
   * the 255-step search `Inverse(0)` with constant arguments.
   */
  lemma InverseZero(x: Byte)
    requires x == 0
    ensures Inverse(x) == 0
  {
    FindInverseSpec(x, 1);
    if Inverse(x) != 0 {
      ProductZeroLeft(Inverse(x));
    }
  }

  /** Every nonzero byte has an inverse. */
  lemma InverseCorrect(x: Byte)
    requires x != 0
    ensures Product(x, Inverse(x)) == 1
  {
    Generator.InverseExists(x);
    var y: Byte :| Product(x, y) == 1;
    InverseUnique(x, y);
  }

  /** A pair `x * y == 1` is recorded in both directions. */
  lemma InversePair(x: Byte, y: Byte)
    requires Product(x, y) == 1
    ensures y == Inverse(x) && x == Inverse(y) && x != 0 && y != 0
  {
    InverseUnique(x, y);
    ProductComm(x, y);
    InverseUnique(y, x);
  }

  /** The inverse table is an involution. */
  lemma InverseInvolution(x: Byte)
    ensures Inverse(Inverse(x)) == x
  {
    if x != 0 {
      InverseCorrect(x);
      InversePair(x, Inverse(x));
    } else {
      InverseZero(x);
    }
  }

  /**
   * The brute-force table of src/main.rs: for each `i` not yet filled, try every `j` and
   * record a pair `i * j == 1` at both ends. Entry 0 is never written and stays 0. The
   * search does not stop at the first hit; since inverses are unique, it makes no
   * difference. The invariant says every filled entry holds an inverse, so the skip
   * test passes over resolved entries only.
   */
  method Ginv() returns (table: seq<Byte>)
    ensures |table| == 256 && table[0] == 0
    ensures forall k :: 1 <= k < 256 ==> Product(k, table[k]) == 1
  {
    var res := new Byte[256](_ => 0);
    for i := 1 to 256
      invariant res[0] == 0
      invariant forall k :: 0 <= k < 256 ==> res[k] == 0 || Product(k, res[k]) == 1
      invariant forall k :: 1 <= k < i ==> res[k] != 0
    {
      if res[i] != 0 {
        continue;
      }
      for j := 1 to 256
        invariant res[0] == 0
        invariant forall k :: 0 <= k < 256 ==> res[k] == 0 || Product(k, res[k]) == 1
        invariant forall k :: 1 <= k < i ==> res[k] != 0
        invariant res[i] == 0 ==> forall k :: 1 <= k < j ==> Product(i, k) != 1
      {
        var p := Gmul(i, j);
        if p == 1 {
          ProductComm(i, j);
          res[i] := j;
          res[j] := i;
        }
      }
      if res[i] == 0 {
        // No j in 1..255 inverts i, but every nonzero byte has an inverse.
        Generator.InverseExists(i);
        assert false;
      }
    }
    table := res[..];
  }

  /** Any table with the properties `Ginv` ensures is the table of `Inverse`. */
  lemma GinvTable(t: seq<Byte>)
    requires |t| == 256 && t[0] == 0
    requires forall k :: 1 <= k < 256 ==> Product(k, t[k]) == 1
    ensures forall k :: 0 <= k < 256 ==> t[k] == Inverse(k)
  {
    forall k | 0 <= k < 256
      ensures t[k] == Inverse(k)
    {
      if k == 0 {
        InverseZero(k);
      } else {
        InverseUnique(k, t[k]);
      }
    }
  }

  /** The table `Ginv` builds is an involution: `t[t[k]] == k`. */
  lemma GinvInvolution(t: seq<Byte>)
    requires |t| == 256 && t[0] == 0
    requires forall k :: 1 <= k < 256 ==> Product(k, t[k]) == 1
    ensures forall k :: 0 <= k < 256 ==> t[t[k]] == k
  {
    GinvTable(t);
    forall k | 0 <= k < 256
      ensures t[t[k]] == k
    {
      InverseInvolution(k);
    }
  }

  // ---------------------------------------------------------------------------------
  // The GF256 value type and its operators
  // ---------------------------------------------------------------------------------

  /** The result of `from_u8array`: the elements, or an error carrying nothing. */
  datatype Result<T> = Ok(value: T) | Err

  /** `a + b` on raw bytes, wrapped as a field element. */
  function AddByXor(a: Byte, b: Byte): GF256
  {
    GF256(GaloisField.Add(a, b))
  }

  /**
   * A field element holding one byte; `GF256::new` is the constructor `GF256(val)`. The
   * operator impls are its member functions. `Mul` and `Div` are stated with `Product`,
   * which `Gmul` computes, and `Inverse`, which is the table `Ginv` builds.
   */
  datatype GF256 = GF256(val: Byte)
  {
    /** The `+` operator. */
    function Add(rhs: GF256): GF256
    {
      AddByXor(val, rhs.val)
    }

    /** The `^` operator, the same addition. */
    function BitXor(rhs: GF256): GF256
    {
      AddByXor(val, rhs.val)
    }

    /** The value `^=` stores in the left operand. */
    function BitXorAssign(rhs: GF256): (updated: GF256)
      ensures updated == this.Add(rhs)
    {
      AddByXor(val, rhs.val)
    }

    /** The `*` operator. */
    function Mul(rhs: GF256): GF256
    {
      GF256(Product(val, rhs.val))
    }

    /** The `/` operator: multiply by the inverse table entry of the divisor. */
    function Div(rhs: GF256): GF256
    {
      Mul(GF256(Inverse(rhs.val)))
    }
  }

  lemma BitXorIsAdd(x: GF256, y: GF256)
    ensures x.BitXor(y) == x.Add(y)
  {}

  lemma AddCommutative(x: GF256, y: GF256)
    ensures x.Add(y) == y.Add(x)
  {
    AddComm(x.val, y.val);
  }

  lemma AddAssociative(x: GF256, y: GF256, z: GF256)
    ensures x.Add(y).Add(z) == x.Add(y.Add(z))
  {
    AddAssoc(x.val, y.val, z.val);
  }

  /** 0 is the additive identity. */
  lemma AddIdentity(x: GF256)
    ensures x.Add(GF256(0)) == x && GF256(0).Add(x) == x
  {
    AddZero(x.val);
  }

  /** Every element is its own negation, so `-` can be `+`. */
  lemma AddSelfCancels(x: GF256)
    ensures x.Add(x).val == 0
  {
    AddSelf(x.val);
  }

  lemma MulCommutative(x: GF256, y: GF256)
    ensures x.Mul(y) == y.Mul(x)
  {
    ProductComm(x.val, y.val);
  }

  lemma MulAssociative(x: GF256, y: GF256, z: GF256)
    ensures x.Mul(y).Mul(z) == x.Mul(y.Mul(z))
  {
    ProductAssoc(x.val, y.val, z.val);
  }

  /** 1 is the multiplicative identity and 0 absorbs. */
  lemma MulIdentity(x: GF256)
    ensures x.Mul(GF256(1)) == x && GF256(1).Mul(x) == x
    ensures x.Mul(GF256(0)) == GF256(0) && GF256(0).Mul(x) == GF256(0)
  {
    ProductOneRight(x.val);
    ProductOneLeft(x.val);
    ProductZeroLeft(x.val);
    ProductComm(x.val, 0);
  }

  lemma MulDistributes(x: GF256, y: GF256, z: GF256)
    ensures x.Mul(y.Add(z)) == x.Mul(y).Add(x.Mul(z))
    ensures y.Add(z).Mul(x) == y.Mul(x).Add(z.Mul(x))
  {
    ProductLinearRight(x.val, y.val, z.val);
    ProductLinearLeft(y.val, z.val, x.val);
  }

  /** Division by a nonzero element undoes multiplication by it. */
  lemma DivUndoesMul(x: GF256, a: GF256)
    requires a.val != 0
    ensures x.Mul(a).Div(a) == x && x.Div(a).Mul(a) == x
  {
    InverseCorrect(a.val);
    ProductAssoc(x.val, a.val, Inverse(a.val));
    ProductComm(a.val, Inverse(a.val));
    ProductAssoc(x.val, Inverse(a.val), a.val);
    ProductOneRight(x.val);
  }

  /**
   * Division by zero does not fail: entry 0 of the table is 0, so the quotient is 0. The
   * divisor is a parameter fixed by the requires, for the reason given at InverseZero.
   */
  lemma DivByZero(x: GF256, zero: GF256)
    requires zero.val == 0
    ensures x.Div(zero).val == 0
  {
    InverseZero(zero.val);
    ProductComm(x.val, 0);
  }

  /** A nonzero element divided by itself is 1. */
  lemma DivSelf(a: GF256)
    requires a.val != 0
    ensures a.Div(a).val == 1
  {
    InverseCorrect(a.val);
  }

  /**
   * `from_u8array`: an error unless the slice holds exactly 16 bytes; otherwise the 16
   * elements, copied one by one into a fresh array.
   */
  method FromU8Array(bytes: seq<Byte>) returns (r: Result<seq<GF256>>)
    ensures r.Err? <==> |bytes| != 16
    ensures r.Ok? ==> |r.value| == 16 && forall i :: 0 <= i < 16 ==> r.value[i].val == bytes[i]
  {
    if |bytes| != 16 {
      return Err;
    }
    var res := new GF256[16](_ => GF256(0));
    for i := 0 to 16
      invariant forall k :: 0 <= k < i ==> res[k].val == bytes[k]
    {
      res[i] := GF256(bytes[i]);
    }
    return Ok(res[..]);
  }
}
