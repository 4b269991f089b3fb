/** The field GF(2^8) of section 4 of FIPS 197, and the column mixing built on it. */
module AesField {
  /** Addition in the field, section 4.1. A call, so that the solver rewrites sums as wholes. */
  function Sum(x: bv8, y: bv8): bv8 {
    x ^ y
  }

  /** smb2_xtime: multiplication by x, that is by {02}. */
  function XTime(x: bv8): bv8 {
    (x << 1) ^ (((x >> 7) & 1) * 0x1b)
  }

  /** smb2_Multiply. */
  function Multiply(x: bv8, y: bv8): bv8 {
    ((y & 1) * x) ^ (((y >> 1) & 1) * XTime(x)) ^ (((y >> 2) & 1) * XTime(XTime(x)))
    ^ (((y >> 3) & 1) * XTime(XTime(XTime(x)))) ^ (((y >> 4) & 1) * XTime(XTime(XTime(XTime(x)))))
  }

  function SumOfFour(a: bv8, b: bv8, c: bv8, d: bv8): bv8 {
    Sum(Sum(Sum(a, b), c), d)
  }

  /** One byte of a mixed column (a, b, c, d): a is the byte itself, the others follow it around. */
  function MixByte(a: bv8, b: bv8, c: bv8, d: bv8): bv8 {
    Sum(a, Sum(XTime(Sum(a, b)), SumOfFour(a, b, c, d)))
  }

  function UnmixByte(a: bv8, b: bv8, c: bv8, d: bv8): bv8 {
    SumOfFour(Multiply(a, 0x0e), Multiply(b, 0x0b), Multiply(c, 0x0d), Multiply(d, 0x09))
  }

  // Section 4.2 of FIPS 197: bytes are polynomials over GF(2), multiplied modulo x^8 + x^4 + x^3 + x + 1.

  function Term(x: bv8, y: bv8, power: bv3): bv16 {
    if (y >> power) & 1 == 1 then (x as bv16) << power else 0
  }

  function PolynomialProduct(x: bv8, y: bv8): bv16 {
    Term(x, y, 0) ^ Term(x, y, 1) ^ Term(x, y, 2) ^ Term(x, y, 3)
    ^ Term(x, y, 4) ^ Term(x, y, 5) ^ Term(x, y, 6) ^ Term(x, y, 7)
  }

  function Without(p: bv16, power: bv4): bv16
    requires 8 <= power
  {
    if (p >> power) & 1 == 1 then p ^ (0x11b << (power - 8)) else p
  }

  function Remainder(p: bv16): bv8 {
    (Without(Without(Without(Without(Without(Without(Without(p, 14), 13), 12), 11), 10), 9), 8) & 0xff) as bv8
  }

  function FieldProduct(x: bv8, y: bv8): bv8 {
    Remainder(PolynomialProduct(x, y))
  }

  lemma TwiceIsField(x: bv8)
    ensures Multiply(x, 0x02) == FieldProduct(x, 0x02)
  {
  }

  lemma ThriceIsField(x: bv8)
    ensures Multiply(x, 0x03) == FieldProduct(x, 0x03)
  {
  }

  lemma NineIsField(x: bv8)
    ensures Multiply(x, 0x09) == FieldProduct(x, 0x09)
  {
  }

  lemma ElevenIsField(x: bv8)
    ensures Multiply(x, 0x0b) == FieldProduct(x, 0x0b)
  {
  }

  lemma ThirteenIsField(x: bv8)
    ensures Multiply(x, 0x0d) == FieldProduct(x, 0x0d)
  {
  }

  lemma FourteenIsField(x: bv8)
    ensures Multiply(x, 0x0e) == FieldProduct(x, 0x0e)
  {
  }

  /** xtime without a branch or a product, which the solver finds linear at once. */
  function Folded(x: bv8): bv8 {
    var high := x >> 7;
    (x << 1) ^ high ^ (high << 1) ^ (high << 3) ^ (high << 4)
  }

  lemma XTimeFolded(x: bv8)
    ensures XTime(x) == Folded(x)
  {
  }

  lemma FoldedLinear(x: bv8, y: bv8)
    ensures Folded(x ^ y) == Folded(x) ^ Folded(y)
  {
  }

  lemma XTimeLinear(x: bv8, y: bv8)
    ensures XTime(x ^ y) == XTime(x) ^ XTime(y)
  {
    hide XTime, Folded;
    calc {
      XTime(x ^ y);
      { XTimeFolded(x ^ y); }
      Folded(x ^ y);
      { FoldedLinear(x, y); }
      Folded(x) ^ Folded(y);
      { XTimeFolded(x); XTimeFolded(y); }
      XTime(x) ^ XTime(y);
    }
  }

  lemma TwiceByPowers(x: bv8)
    ensures Multiply(x, 0x02) == XTime(x)
  {
    hide XTime;
  }

  lemma ThriceByPowers(x: bv8)
    ensures Multiply(x, 0x03) == x ^ XTime(x)
  {
    hide XTime;
  }

  lemma SumIsXor(x: bv8, y: bv8)
    ensures Sum(x, y) == x ^ y
  {
  }

  lemma SumsCross(p: bv8, q: bv8, r: bv8, s: bv8)
    ensures Sum(Sum(p, q), Sum(r, s)) == Sum(Sum(p, r), Sum(q, s))
  {
    hide Sum;
    calc {
      Sum(Sum(p, q), Sum(r, s));
      { SumIsXor(p, q); SumIsXor(r, s); }
      Sum(p ^ q, r ^ s);
      { SumIsXor(p ^ q, r ^ s); }
      (p ^ q) ^ (r ^ s);
      (p ^ r) ^ (q ^ s);
      { SumIsXor(p ^ r, q ^ s); }
      Sum(p ^ r, q ^ s);
      { SumIsXor(p, r); SumIsXor(q, s); }
      Sum(Sum(p, r), Sum(q, s));
    }
  }

  lemma SumOfFourIsXor(a: bv8, b: bv8, c: bv8, d: bv8)
    ensures SumOfFour(a, b, c, d) == a ^ b ^ c ^ d
  {
    SumIsXor(a, b);
    SumIsXor(a ^ b, c);
    SumIsXor(a ^ b ^ c, d);
  }

  /** A sum does not depend on where around the column it starts. */
  lemma SumOfFourAround(a: bv8, b: bv8, c: bv8, d: bv8)
    ensures SumOfFour(b, c, d, a) == SumOfFour(a, b, c, d)
  {
    hide SumOfFour;
    calc {
      SumOfFour(b, c, d, a);
      { SumOfFourIsXor(b, c, d, a); }
      b ^ c ^ d ^ a;
      a ^ b ^ c ^ d;
      { SumOfFourIsXor(a, b, c, d); }
      SumOfFour(a, b, c, d);
    }
  }

  lemma XTimeSum(x: bv8, y: bv8)
    ensures XTime(Sum(x, y)) == Sum(XTime(x), XTime(y))
  {
    hide XTime;
    XTimeLinear(x, y);
  }

  lemma SumOfFourLinear(a: bv8, b: bv8, c: bv8, d: bv8, e: bv8, f: bv8, g: bv8, h: bv8)
    ensures SumOfFour(Sum(a, e), Sum(b, f), Sum(c, g), Sum(d, h)) == Sum(SumOfFour(a, b, c, d), SumOfFour(e, f, g, h))
  {
    hide Sum;
    SumsCross(a, e, b, f);
    SumsCross(Sum(a, b), Sum(e, f), c, g);
    SumsCross(Sum(Sum(a, b), c), Sum(Sum(e, f), g), d, h);
  }

  lemma NineAsSums(x: bv8)
    ensures Multiply(x, 0x09) == Sum(x, XTime(XTime(XTime(x))))
  {
    hide XTime;
  }

  lemma NineLinear(x: bv8, y: bv8)
    ensures Multiply(Sum(x, y), 0x09) == Sum(Multiply(x, 0x09), Multiply(y, 0x09))
  {
    hide XTime, Multiply, Sum;
    NineAsSums(x);
    NineAsSums(y);
    NineAsSums(Sum(x, y));
    XTimeSum(x, y);
    XTimeSum(XTime(x), XTime(y));
    XTimeSum(XTime(XTime(x)), XTime(XTime(y)));
    SumsCross(x, y, XTime(XTime(XTime(x))), XTime(XTime(XTime(y))));
  }

  lemma ElevenAsSums(x: bv8)
    ensures Multiply(x, 0x0b) == Sum(Sum(x, XTime(x)), XTime(XTime(XTime(x))))
  {
    hide XTime;
  }

  lemma ElevenLinear(x: bv8, y: bv8)
    ensures Multiply(Sum(x, y), 0x0b) == Sum(Multiply(x, 0x0b), Multiply(y, 0x0b))
  {
    hide XTime, Multiply, Sum;
    ElevenAsSums(x);
    ElevenAsSums(y);
    ElevenAsSums(Sum(x, y));
    XTimeSum(x, y);
    XTimeSum(XTime(x), XTime(y));
    XTimeSum(XTime(XTime(x)), XTime(XTime(y)));
    SumsCross(x, y, XTime(x), XTime(y));
    SumsCross(Sum(x, XTime(x)), Sum(y, XTime(y)), XTime(XTime(XTime(x))), XTime(XTime(XTime(y))));
  }

  lemma ThirteenAsSums(x: bv8)
    ensures Multiply(x, 0x0d) == Sum(Sum(x, XTime(XTime(x))), XTime(XTime(XTime(x))))
  {
    hide XTime;
  }

  lemma ThirteenLinear(x: bv8, y: bv8)
    ensures Multiply(Sum(x, y), 0x0d) == Sum(Multiply(x, 0x0d), Multiply(y, 0x0d))
  {
    hide XTime, Multiply, Sum;
    ThirteenAsSums(x);
    ThirteenAsSums(y);
    ThirteenAsSums(Sum(x, y));
    XTimeSum(x, y);
    XTimeSum(XTime(x), XTime(y));
    XTimeSum(XTime(XTime(x)), XTime(XTime(y)));
    SumsCross(x, y, XTime(XTime(x)), XTime(XTime(y)));
    SumsCross(Sum(x, XTime(XTime(x))), Sum(y, XTime(XTime(y))), XTime(XTime(XTime(x))), XTime(XTime(XTime(y))));
  }

  lemma FourteenAsSums(x: bv8)
    ensures Multiply(x, 0x0e) == Sum(Sum(XTime(x), XTime(XTime(x))), XTime(XTime(XTime(x))))
  {
    hide XTime;
  }

  lemma FourteenLinear(x: bv8, y: bv8)
    ensures Multiply(Sum(x, y), 0x0e) == Sum(Multiply(x, 0x0e), Multiply(y, 0x0e))
  {
    hide XTime, Multiply, Sum;
    FourteenAsSums(x);
    FourteenAsSums(y);
    FourteenAsSums(Sum(x, y));
    XTimeSum(x, y);
    XTimeSum(XTime(x), XTime(y));
    XTimeSum(XTime(XTime(x)), XTime(XTime(y)));
    SumsCross(XTime(x), XTime(y), XTime(XTime(x)), XTime(XTime(y)));
    SumsCross(Sum(XTime(x), XTime(XTime(x))), Sum(XTime(y), XTime(XTime(y))), XTime(XTime(XTime(x))), XTime(XTime(XTime(y))));
  }

  lemma MixLinear(a: bv8, b: bv8, c: bv8, d: bv8, e: bv8, f: bv8, g: bv8, h: bv8)
    ensures MixByte(Sum(a, e), Sum(b, f), Sum(c, g), Sum(d, h)) == Sum(MixByte(a, b, c, d), MixByte(e, f, g, h))
  {
    hide XTime, Sum, SumOfFour;
    SumOfFourLinear(a, b, c, d, e, f, g, h);
    SumsCross(a, e, b, f);
    XTimeSum(Sum(a, b), Sum(e, f));
    SumsCross(XTime(Sum(a, b)), XTime(Sum(e, f)), SumOfFour(a, b, c, d), SumOfFour(e, f, g, h));
    SumsCross(a, e, Sum(XTime(Sum(a, b)), SumOfFour(a, b, c, d)), Sum(XTime(Sum(e, f)), SumOfFour(e, f, g, h)));
  }

  lemma UnmixLinear(a: bv8, b: bv8, c: bv8, d: bv8, e: bv8, f: bv8, g: bv8, h: bv8)
    ensures UnmixByte(Sum(a, e), Sum(b, f), Sum(c, g), Sum(d, h)) == Sum(UnmixByte(a, b, c, d), UnmixByte(e, f, g, h))
  {
    hide XTime, Multiply, Sum, SumOfFour;
    FourteenLinear(a, e);
    ElevenLinear(b, f);
    ThirteenLinear(c, g);
    NineLinear(d, h);
    SumOfFourLinear(Multiply(a, 0x0e), Multiply(b, 0x0b), Multiply(c, 0x0d), Multiply(d, 0x09),
                    Multiply(e, 0x0e), Multiply(f, 0x0b), Multiply(g, 0x0d), Multiply(h, 0x09));
  }

  /** The matrix products of sections 5.1.3 and 5.3.3 of FIPS 197. */
  lemma MixIsStandard(a: bv8, b: bv8, c: bv8, d: bv8)
    ensures MixByte(a, b, c, d) == FieldProduct(a, 0x02) ^ FieldProduct(b, 0x03) ^ c ^ d
  {
    hide XTime, Multiply, FieldProduct, Sum, SumOfFour, MixByte;
    calc {
      MixByte(a, b, c, d);
      { MixByteIsXor(a, b, c, d); }
      XTime(a) ^ (XTime(b) ^ b) ^ c ^ d;
      { TwiceIsField(a); TwiceByPowers(a); ThriceIsField(b); ThriceByPowers(b); }
      FieldProduct(a, 0x02) ^ FieldProduct(b, 0x03) ^ c ^ d;
    }
  }

  lemma MixByteIsXor(a: bv8, b: bv8, c: bv8, d: bv8)
    ensures MixByte(a, b, c, d) == XTime(a) ^ (XTime(b) ^ b) ^ c ^ d
  {
    hide XTime, Sum, SumOfFour;
    calc {
      MixByte(a, b, c, d);
      Sum(a, Sum(XTime(Sum(a, b)), SumOfFour(a, b, c, d)));
      { XTimeSum(a, b); SumOfFourIsXor(a, b, c, d); SumIsXor(XTime(a), XTime(b)); }
      Sum(a, Sum(XTime(a) ^ XTime(b), a ^ b ^ c ^ d));
      { SumIsXor(XTime(a) ^ XTime(b), a ^ b ^ c ^ d); }
      Sum(a, XTime(a) ^ XTime(b) ^ (a ^ b ^ c ^ d));
      { SumIsXor(a, XTime(a) ^ XTime(b) ^ (a ^ b ^ c ^ d)); }
      a ^ (XTime(a) ^ XTime(b) ^ (a ^ b ^ c ^ d));
      XTime(a) ^ (XTime(b) ^ b) ^ c ^ d;
    }
  }

  lemma UnmixIsStandard(a: bv8, b: bv8, c: bv8, d: bv8)
    ensures UnmixByte(a, b, c, d)
         == FieldProduct(a, 0x0e) ^ FieldProduct(b, 0x0b) ^ FieldProduct(c, 0x0d) ^ FieldProduct(d, 0x09)
  {
    hide XTime, Multiply, FieldProduct, Sum, SumOfFour;
    FourteenIsField(a);
    ElevenIsField(b);
    ThirteenIsField(c);
    NineIsField(d);
    SumOfFourIsXor(FieldProduct(a, 0x0e), FieldProduct(b, 0x0b), FieldProduct(c, 0x0d), FieldProduct(d, 0x09));
  }

  /** A column mixed, and its first byte unmixed. */
  function FirstBack(a: bv8, b: bv8, c: bv8, d: bv8): bv8 {
    UnmixByte(MixByte(a, b, c, d), MixByte(b, c, d, a), MixByte(c, d, a, b), MixByte(d, a, b, c))
  }

  lemma FirstBackLinear(a: bv8, b: bv8, c: bv8, d: bv8, e: bv8, f: bv8, g: bv8, h: bv8)
    ensures FirstBack(Sum(a, e), Sum(b, f), Sum(c, g), Sum(d, h)) == Sum(FirstBack(a, b, c, d), FirstBack(e, f, g, h))
  {
    hide UnmixByte, MixByte, Sum;
    MixLinear(a, b, c, d, e, f, g, h);
    MixLinear(b, c, d, a, f, g, h, e);
    MixLinear(c, d, a, b, g, h, e, f);
    MixLinear(d, a, b, c, h, e, f, g);
    UnmixLinear(MixByte(a, b, c, d), MixByte(b, c, d, a), MixByte(c, d, a, b), MixByte(d, a, b, c),
                MixByte(e, f, g, h), MixByte(f, g, h, e), MixByte(g, h, e, f), MixByte(h, e, f, g));
  }

  lemma FirstBackOfFirst(a: bv8)
    ensures FirstBack(a, 0, 0, 0) == a
  {
  }

  lemma FirstBackOfSecond(b: bv8)
    ensures FirstBack(0, b, 0, 0) == 0
  {
  }

  lemma FirstBackOfThird(c: bv8)
    ensures FirstBack(0, 0, c, 0) == 0
  {
  }

  lemma FirstBackOfFourth(d: bv8)
    ensures FirstBack(0, 0, 0, d) == 0
  {
  }

  lemma SumZero(x: bv8)
    ensures Sum(x, 0) == x && Sum(0, x) == x
  {
  }

  /** InvMixColumns undoes MixColumns: both are linear, so it is enough that it does so on each byte of a column. */
  lemma UnmixMix(a: bv8, b: bv8, c: bv8, d: bv8)
    ensures UnmixByte(MixByte(a, b, c, d), MixByte(b, c, d, a), MixByte(c, d, a, b), MixByte(d, a, b, c)) == a
  {
    hide UnmixByte, MixByte, Sum;
    SumZero(a);
    SumZero(b);
    SumZero(c);
    SumZero(d);
    SumZero(0);
    FirstBackLinear(a, b, c, 0, 0, 0, 0, d);
    FirstBackLinear(a, b, 0, 0, 0, 0, c, 0);
    FirstBackLinear(a, 0, 0, 0, 0, b, 0, 0);
    FirstBackOfFirst(a);
    FirstBackOfSecond(b);
    FirstBackOfThird(c);
    FirstBackOfFourth(d);
  }
}
