/** MD4: the 48 steps of section 3.4 of RFC 1320, and MD4Transform of lib/md4c.c, which unrolls them. */
module Md4Steps {
  import opened Hashing

  /** Which word of the block the step takes. */
  function Index(i: nat): (k: nat)
    ensures k < 16
  {
    if i < 16 then i
    else if i < 32 then 4 * (i % 4) + (i - 16) / 4
    else 8 * (i % 2) + 4 * (i / 2 % 2) + 2 * (i / 4 % 2) + i / 8 % 2
  }

  function Shift(i: nat): (s: bv6)
    ensures 3 <= s <= 19
  {
    var r := i % 4;
    if i < 16 then (if r == 0 then 3 else if r == 1 then 7 else if r == 2 then 11 else 19)
    else if i < 32 then (if r == 0 then 3 else if r == 1 then 5 else if r == 2 then 9 else 13)
    else (if r == 0 then 3 else if r == 1 then 9 else if r == 2 then 11 else 15)
  }

  function Constant(round: nat): bv32 {
    match round
    case 0 => 0
    case 1 => 0x5a827999
    case _ => 0x6ed9eba1
  }

  function F(x: bv32, y: bv32, z: bv32): bv32 {
    (x & y) | (!x & z)
  }

  function G(x: bv32, y: bv32, z: bv32): bv32 {
    (x & y) | (x & z) | (y & z)
  }

  function H(x: bv32, y: bv32, z: bv32): bv32 {
    x ^ y ^ z
  }

  function Auxiliary(round: nat, x: bv32, y: bv32, z: bv32): bv32 {
    match round
    case 0 => F(x, y, z)
    case 1 => G(x, y, z)
    case _ => H(x, y, z)
  }

  /** a = (a + F(b,c,d) + X[k] + constant) <<< s. */
  function RfcStep(x: Words, i: nat, st: Chain): bv32 {
    RotateLeft(Plus(Plus(Plus(st[0], Auxiliary(i / 16, st[1], st[2], st[3])), x[Index(i)]), Constant(i / 16)), Shift(i))
  }

  function Compress(s: Chain, block: Block): Chain {
    Compressed(RfcStep, 48, s, block)
  }

  // ----- FF, GG and HH, with the value of the function in place of its arguments -----

  function FF(a: bv32, f: bv32, x: bv32, s: bv6): bv32
    requires s <= 32
  {
    RotateLeft(Plus(a, Plus(f, x)), s)
  }

  function GG(a: bv32, g: bv32, x: bv32, s: bv6): bv32
    requires s <= 32
  {
    RotateLeft(Plus(a, Plus(Plus(g, x), 0x5a827999)), s)
  }

  function HH(a: bv32, h: bv32, x: bv32, s: bv6): bv32
    requires s <= 32
  {
    RotateLeft(Plus(a, Plus(Plus(h, x), 0x6ed9eba1)), s)
  }

  lemma PlusZero(x: bv32)
    ensures Plus(x, 0) == x
  {
  }

  lemma FFIsRfc(x: Words, i: nat, a: bv32, b: bv32, c: bv32, d: bv32)
    requires 0 <= i < 16
    ensures RfcStep(x, i, [a, b, c, d]) == FF(a, F(b, c, d), x[Index(i)], Shift(i))
  {
    hide RotateLeft, Plus, Index, Shift, F, G, H;
    PlusIsAssociative(a, F(b, c, d), x[Index(i)]);
    PlusZero(Plus(Plus(a, F(b, c, d)), x[Index(i)]));
  }

  lemma GGIsRfc(x: Words, i: nat, a: bv32, b: bv32, c: bv32, d: bv32)
    requires 16 <= i < 32
    ensures RfcStep(x, i, [a, b, c, d]) == GG(a, G(b, c, d), x[Index(i)], Shift(i))
  {
    hide RotateLeft, Plus, Index, Shift, F, G, H;
    PlusIsAssociative(a, G(b, c, d), x[Index(i)]);
    PlusIsAssociative(a, Plus(G(b, c, d), x[Index(i)]), Constant(1));
  }

  lemma HHIsRfc(x: Words, i: nat, a: bv32, b: bv32, c: bv32, d: bv32)
    requires 32 <= i < 48
    ensures RfcStep(x, i, [a, b, c, d]) == HH(a, H(b, c, d), x[Index(i)], Shift(i))
  {
    hide RotateLeft, Plus, Index, Shift, F, G, H;
    PlusIsAssociative(a, H(b, c, d), x[Index(i)]);
    PlusIsAssociative(a, Plus(H(b, c, d), x[Index(i)]), Constant(2));
  }

  lemma Data0To3()
    ensures Index(0) == 0 && Shift(0) == 3
    ensures Index(1) == 1 && Shift(1) == 7
    ensures Index(2) == 2 && Shift(2) == 11
    ensures Index(3) == 3 && Shift(3) == 19
  {
  }

  method Steps0To3(x: Words, ghost st: Chain, a0: bv32, b0: bv32, c0: bv32, d0: bv32)
    returns (a: bv32, b: bv32, c: bv32, d: bv32)
    requires Run(RfcStep, x, st, 0) == [a0, b0, c0, d0]
    ensures Run(RfcStep, x, st, 4) == [a, b, c, d]
  {
    hide RfcStep, FF, F, Run, Index, Shift;
    Data0To3();
    a, b, c, d := a0, b0, c0, d0;
    ghost var a1, b1, c1, d1 := FourSteps(RfcStep, x, st, 0, a, b, c, d);
    FFIsRfc(x, 0, a, b, c, d);
    a := FF(a, F(b, c, d), x[0], 3);
    FFIsRfc(x, 1, d, a, b, c);
    d := FF(d, F(a, b, c), x[1], 7);
    FFIsRfc(x, 2, c, d, a, b);
    c := FF(c, F(d, a, b), x[2], 11);
    FFIsRfc(x, 3, b, c, d, a);
    b := FF(b, F(c, d, a), x[3], 19);
  }

  lemma Data4To7()
    ensures Index(4) == 4 && Shift(4) == 3
    ensures Index(5) == 5 && Shift(5) == 7
    ensures Index(6) == 6 && Shift(6) == 11
    ensures Index(7) == 7 && Shift(7) == 19
  {
  }

  method Steps4To7(x: Words, ghost st: Chain, a0: bv32, b0: bv32, c0: bv32, d0: bv32)
    returns (a: bv32, b: bv32, c: bv32, d: bv32)
    requires Run(RfcStep, x, st, 4) == [a0, b0, c0, d0]
    ensures Run(RfcStep, x, st, 8) == [a, b, c, d]
  {
    hide RfcStep, FF, F, Run, Index, Shift;
    Data4To7();
    a, b, c, d := a0, b0, c0, d0;
    ghost var a1, b1, c1, d1 := FourSteps(RfcStep, x, st, 4, a, b, c, d);
    FFIsRfc(x, 4, a, b, c, d);
    a := FF(a, F(b, c, d), x[4], 3);
    FFIsRfc(x, 5, d, a, b, c);
    d := FF(d, F(a, b, c), x[5], 7);
    FFIsRfc(x, 6, c, d, a, b);
    c := FF(c, F(d, a, b), x[6], 11);
    FFIsRfc(x, 7, b, c, d, a);
    b := FF(b, F(c, d, a), x[7], 19);
  }

  lemma Data8To11()
    ensures Index(8) == 8 && Shift(8) == 3
    ensures Index(9) == 9 && Shift(9) == 7
    ensures Index(10) == 10 && Shift(10) == 11
    ensures Index(11) == 11 && Shift(11) == 19
  {
  }

  method Steps8To11(x: Words, ghost st: Chain, a0: bv32, b0: bv32, c0: bv32, d0: bv32)
    returns (a: bv32, b: bv32, c: bv32, d: bv32)
    requires Run(RfcStep, x, st, 8) == [a0, b0, c0, d0]
    ensures Run(RfcStep, x, st, 12) == [a, b, c, d]
  {
    hide RfcStep, FF, F, Run, Index, Shift;
    Data8To11();
    a, b, c, d := a0, b0, c0, d0;
    ghost var a1, b1, c1, d1 := FourSteps(RfcStep, x, st, 8, a, b, c, d);
    FFIsRfc(x, 8, a, b, c, d);
    a := FF(a, F(b, c, d), x[8], 3);
    FFIsRfc(x, 9, d, a, b, c);
    d := FF(d, F(a, b, c), x[9], 7);
    FFIsRfc(x, 10, c, d, a, b);
    c := FF(c, F(d, a, b), x[10], 11);
    FFIsRfc(x, 11, b, c, d, a);
    b := FF(b, F(c, d, a), x[11], 19);
  }

  lemma Data12To15()
    ensures Index(12) == 12 && Shift(12) == 3
    ensures Index(13) == 13 && Shift(13) == 7
    ensures Index(14) == 14 && Shift(14) == 11
    ensures Index(15) == 15 && Shift(15) == 19
  {
  }

  method Steps12To15(x: Words, ghost st: Chain, a0: bv32, b0: bv32, c0: bv32, d0: bv32)
    returns (a: bv32, b: bv32, c: bv32, d: bv32)
    requires Run(RfcStep, x, st, 12) == [a0, b0, c0, d0]
    ensures Run(RfcStep, x, st, 16) == [a, b, c, d]
  {
    hide RfcStep, FF, F, Run, Index, Shift;
    Data12To15();
    a, b, c, d := a0, b0, c0, d0;
    ghost var a1, b1, c1, d1 := FourSteps(RfcStep, x, st, 12, a, b, c, d);
    FFIsRfc(x, 12, a, b, c, d);
    a := FF(a, F(b, c, d), x[12], 3);
    FFIsRfc(x, 13, d, a, b, c);
    d := FF(d, F(a, b, c), x[13], 7);
    FFIsRfc(x, 14, c, d, a, b);
    c := FF(c, F(d, a, b), x[14], 11);
    FFIsRfc(x, 15, b, c, d, a);
    b := FF(b, F(c, d, a), x[15], 19);
  }

  lemma Data16To19()
    ensures Index(16) == 0 && Shift(16) == 3
    ensures Index(17) == 4 && Shift(17) == 5
    ensures Index(18) == 8 && Shift(18) == 9
    ensures Index(19) == 12 && Shift(19) == 13
  {
  }

  method Steps16To19(x: Words, ghost st: Chain, a0: bv32, b0: bv32, c0: bv32, d0: bv32)
    returns (a: bv32, b: bv32, c: bv32, d: bv32)
    requires Run(RfcStep, x, st, 16) == [a0, b0, c0, d0]
    ensures Run(RfcStep, x, st, 20) == [a, b, c, d]
  {
    hide RfcStep, GG, G, Run, Index, Shift;
    Data16To19();
    a, b, c, d := a0, b0, c0, d0;
    ghost var a1, b1, c1, d1 := FourSteps(RfcStep, x, st, 16, a, b, c, d);
    GGIsRfc(x, 16, a, b, c, d);
    a := GG(a, G(b, c, d), x[0], 3);
    GGIsRfc(x, 17, d, a, b, c);
    d := GG(d, G(a, b, c), x[4], 5);
    GGIsRfc(x, 18, c, d, a, b);
    c := GG(c, G(d, a, b), x[8], 9);
    GGIsRfc(x, 19, b, c, d, a);
    b := GG(b, G(c, d, a), x[12], 13);
  }

  lemma Data20To23()
    ensures Index(20) == 1 && Shift(20) == 3
    ensures Index(21) == 5 && Shift(21) == 5
    ensures Index(22) == 9 && Shift(22) == 9
    ensures Index(23) == 13 && Shift(23) == 13
  {
  }

  method Steps20To23(x: Words, ghost st: Chain, a0: bv32, b0: bv32, c0: bv32, d0: bv32)
    returns (a: bv32, b: bv32, c: bv32, d: bv32)
    requires Run(RfcStep, x, st, 20) == [a0, b0, c0, d0]
    ensures Run(RfcStep, x, st, 24) == [a, b, c, d]
  {
    hide RfcStep, GG, G, Run, Index, Shift;
    Data20To23();
    a, b, c, d := a0, b0, c0, d0;
    ghost var a1, b1, c1, d1 := FourSteps(RfcStep, x, st, 20, a, b, c, d);
    GGIsRfc(x, 20, a, b, c, d);
    a := GG(a, G(b, c, d), x[1], 3);
    GGIsRfc(x, 21, d, a, b, c);
    d := GG(d, G(a, b, c), x[5], 5);
    GGIsRfc(x, 22, c, d, a, b);
    c := GG(c, G(d, a, b), x[9], 9);
    GGIsRfc(x, 23, b, c, d, a);
    b := GG(b, G(c, d, a), x[13], 13);
  }

  lemma Data24To27()
    ensures Index(24) == 2 && Shift(24) == 3
    ensures Index(25) == 6 && Shift(25) == 5
    ensures Index(26) == 10 && Shift(26) == 9
    ensures Index(27) == 14 && Shift(27) == 13
  {
  }

  method Steps24To27(x: Words, ghost st: Chain, a0: bv32, b0: bv32, c0: bv32, d0: bv32)
    returns (a: bv32, b: bv32, c: bv32, d: bv32)
    requires Run(RfcStep, x, st, 24) == [a0, b0, c0, d0]
    ensures Run(RfcStep, x, st, 28) == [a, b, c, d]
  {
    hide RfcStep, GG, G, Run, Index, Shift;
    Data24To27();
    a, b, c, d := a0, b0, c0, d0;
    ghost var a1, b1, c1, d1 := FourSteps(RfcStep, x, st, 24, a, b, c, d);
    GGIsRfc(x, 24, a, b, c, d);
    a := GG(a, G(b, c, d), x[2], 3);
    GGIsRfc(x, 25, d, a, b, c);
    d := GG(d, G(a, b, c), x[6], 5);
    GGIsRfc(x, 26, c, d, a, b);
    c := GG(c, G(d, a, b), x[10], 9);
    GGIsRfc(x, 27, b, c, d, a);
    b := GG(b, G(c, d, a), x[14], 13);
  }

  lemma Data28To31()
    ensures Index(28) == 3 && Shift(28) == 3
    ensures Index(29) == 7 && Shift(29) == 5
    ensures Index(30) == 11 && Shift(30) == 9
    ensures Index(31) == 15 && Shift(31) == 13
  {
  }

  method Steps28To31(x: Words, ghost st: Chain, a0: bv32, b0: bv32, c0: bv32, d0: bv32)
    returns (a: bv32, b: bv32, c: bv32, d: bv32)
    requires Run(RfcStep, x, st, 28) == [a0, b0, c0, d0]
    ensures Run(RfcStep, x, st, 32) == [a, b, c, d]
  {
    hide RfcStep, GG, G, Run, Index, Shift;
    Data28To31();
    a, b, c, d := a0, b0, c0, d0;
    ghost var a1, b1, c1, d1 := FourSteps(RfcStep, x, st, 28, a, b, c, d);
    GGIsRfc(x, 28, a, b, c, d);
    a := GG(a, G(b, c, d), x[3], 3);
    GGIsRfc(x, 29, d, a, b, c);
    d := GG(d, G(a, b, c), x[7], 5);
    GGIsRfc(x, 30, c, d, a, b);
    c := GG(c, G(d, a, b), x[11], 9);
    GGIsRfc(x, 31, b, c, d, a);
    b := GG(b, G(c, d, a), x[15], 13);
  }

  lemma Data32To35()
    ensures Index(32) == 0 && Shift(32) == 3
    ensures Index(33) == 8 && Shift(33) == 9
    ensures Index(34) == 4 && Shift(34) == 11
    ensures Index(35) == 12 && Shift(35) == 15
  {
  }

  method Steps32To35(x: Words, ghost st: Chain, a0: bv32, b0: bv32, c0: bv32, d0: bv32)
    returns (a: bv32, b: bv32, c: bv32, d: bv32)
    requires Run(RfcStep, x, st, 32) == [a0, b0, c0, d0]
    ensures Run(RfcStep, x, st, 36) == [a, b, c, d]
  {
    hide RfcStep, HH, H, Run, Index, Shift;
    Data32To35();
    a, b, c, d := a0, b0, c0, d0;
    ghost var a1, b1, c1, d1 := FourSteps(RfcStep, x, st, 32, a, b, c, d);
    HHIsRfc(x, 32, a, b, c, d);
    a := HH(a, H(b, c, d), x[0], 3);
    HHIsRfc(x, 33, d, a, b, c);
    d := HH(d, H(a, b, c), x[8], 9);
    HHIsRfc(x, 34, c, d, a, b);
    c := HH(c, H(d, a, b), x[4], 11);
    HHIsRfc(x, 35, b, c, d, a);
    b := HH(b, H(c, d, a), x[12], 15);
  }

  lemma Data36To39()
    ensures Index(36) == 2 && Shift(36) == 3
    ensures Index(37) == 10 && Shift(37) == 9
    ensures Index(38) == 6 && Shift(38) == 11
    ensures Index(39) == 14 && Shift(39) == 15
  {
  }

  method Steps36To39(x: Words, ghost st: Chain, a0: bv32, b0: bv32, c0: bv32, d0: bv32)
    returns (a: bv32, b: bv32, c: bv32, d: bv32)
    requires Run(RfcStep, x, st, 36) == [a0, b0, c0, d0]
    ensures Run(RfcStep, x, st, 40) == [a, b, c, d]
  {
    hide RfcStep, HH, H, Run, Index, Shift;
    Data36To39();
    a, b, c, d := a0, b0, c0, d0;
    ghost var a1, b1, c1, d1 := FourSteps(RfcStep, x, st, 36, a, b, c, d);
    HHIsRfc(x, 36, a, b, c, d);
    a := HH(a, H(b, c, d), x[2], 3);
    HHIsRfc(x, 37, d, a, b, c);
    d := HH(d, H(a, b, c), x[10], 9);
    HHIsRfc(x, 38, c, d, a, b);
    c := HH(c, H(d, a, b), x[6], 11);
    HHIsRfc(x, 39, b, c, d, a);
    b := HH(b, H(c, d, a), x[14], 15);
  }

  lemma Data40To43()
    ensures Index(40) == 1 && Shift(40) == 3
    ensures Index(41) == 9 && Shift(41) == 9
    ensures Index(42) == 5 && Shift(42) == 11
    ensures Index(43) == 13 && Shift(43) == 15
  {
  }

  method Steps40To43(x: Words, ghost st: Chain, a0: bv32, b0: bv32, c0: bv32, d0: bv32)
    returns (a: bv32, b: bv32, c: bv32, d: bv32)
    requires Run(RfcStep, x, st, 40) == [a0, b0, c0, d0]
    ensures Run(RfcStep, x, st, 44) == [a, b, c, d]
  {
    hide RfcStep, HH, H, Run, Index, Shift;
    Data40To43();
    a, b, c, d := a0, b0, c0, d0;
    ghost var a1, b1, c1, d1 := FourSteps(RfcStep, x, st, 40, a, b, c, d);
    HHIsRfc(x, 40, a, b, c, d);
    a := HH(a, H(b, c, d), x[1], 3);
    HHIsRfc(x, 41, d, a, b, c);
    d := HH(d, H(a, b, c), x[9], 9);
    HHIsRfc(x, 42, c, d, a, b);
    c := HH(c, H(d, a, b), x[5], 11);
    HHIsRfc(x, 43, b, c, d, a);
    b := HH(b, H(c, d, a), x[13], 15);
  }

  lemma Data44To47()
    ensures Index(44) == 3 && Shift(44) == 3
    ensures Index(45) == 11 && Shift(45) == 9
    ensures Index(46) == 7 && Shift(46) == 11
    ensures Index(47) == 15 && Shift(47) == 15
  {
  }

  method Steps44To47(x: Words, ghost st: Chain, a0: bv32, b0: bv32, c0: bv32, d0: bv32)
    returns (a: bv32, b: bv32, c: bv32, d: bv32)
    requires Run(RfcStep, x, st, 44) == [a0, b0, c0, d0]
    ensures Run(RfcStep, x, st, 48) == [a, b, c, d]
  {
    hide RfcStep, HH, H, Run, Index, Shift;
    Data44To47();
    a, b, c, d := a0, b0, c0, d0;
    ghost var a1, b1, c1, d1 := FourSteps(RfcStep, x, st, 44, a, b, c, d);
    HHIsRfc(x, 44, a, b, c, d);
    a := HH(a, H(b, c, d), x[3], 3);
    HHIsRfc(x, 45, d, a, b, c);
    d := HH(d, H(a, b, c), x[11], 9);
    HHIsRfc(x, 46, c, d, a, b);
    c := HH(c, H(d, a, b), x[7], 11);
    HHIsRfc(x, 47, b, c, d, a);
    b := HH(b, H(c, d, a), x[15], 15);
  }

  /** Decode, for a block. */
  method Decode(block: array<bv8>) returns (x: Words)
    requires block.Length == 64
    ensures x == Decoded(block[..])
  {
    hide WordOf;
    var output := new bv32[16];
    var i, j := 0, 0;
    while j < 64
      invariant j == 4 * i && i <= 16
      invariant forall k :: 0 <= k < i ==>
        output[k] == WordOf(block[4 * k], block[4 * k + 1], block[4 * k + 2], block[4 * k + 3])
    {
      output[i] := WordOf(block[j], block[j + 1], block[j + 2], block[j + 3]);
      i, j := i + 1, j + 4;
    }
    x := output[..];
  }

  /** MD4Transform. */
  method Transform(state: array<bv32>, block: array<bv8>)
    requires state.Length == 4 && block.Length == 64
    modifies state
    ensures state[..] == Compress(old(state[..]), block[..])
  {
    hide Run, Plus, Decoded;
    ghost var st: Chain := state[..];
    var a, b, c, d := state[0], state[1], state[2], state[3];
    var x := Decode(block);
    StartOfRun(x, st);
    a, b, c, d := Steps0To3(x, st, a, b, c, d);
    a, b, c, d := Steps4To7(x, st, a, b, c, d);
    a, b, c, d := Steps8To11(x, st, a, b, c, d);
    a, b, c, d := Steps12To15(x, st, a, b, c, d);
    a, b, c, d := Steps16To19(x, st, a, b, c, d);
    a, b, c, d := Steps20To23(x, st, a, b, c, d);
    a, b, c, d := Steps24To27(x, st, a, b, c, d);
    a, b, c, d := Steps28To31(x, st, a, b, c, d);
    a, b, c, d := Steps32To35(x, st, a, b, c, d);
    a, b, c, d := Steps36To39(x, st, a, b, c, d);
    a, b, c, d := Steps40To43(x, st, a, b, c, d);
    a, b, c, d := Steps44To47(x, st, a, b, c, d);
    state[0] := Plus(state[0], a);
    state[1] := Plus(state[1], b);
    state[2] := Plus(state[2], c);
    state[3] := Plus(state[3], d);
  }

  lemma StartOfRun(x: Words, st: Chain)
    ensures Run(RfcStep, x, st, 0) == [st[0], st[1], st[2], st[3]]
  {
  }
}
