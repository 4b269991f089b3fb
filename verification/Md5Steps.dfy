/** MD5: the 64 steps of section 3.4 of RFC 1321, and MD5Transform of lib/md5.c, which unrolls them. */
module Md5Steps {
  import opened Hashing

  function Table1(i: nat): bv32 {
    match i
    case 0 => 0xd76aa478 case 1 => 0xe8c7b756 case 2 => 0x242070db case 3 => 0xc1bdceee
    case 4 => 0xf57c0faf case 5 => 0x4787c62a case 6 => 0xa8304613 case 7 => 0xfd469501
    case 8 => 0x698098d8 case 9 => 0x8b44f7af case 10 => 0xffff5bb1 case 11 => 0x895cd7be
    case 12 => 0x6b901122 case 13 => 0xfd987193 case 14 => 0xa679438e case _ => 0x49b40821
  }

  function Table2(i: nat): bv32 {
    match i
    case 16 => 0xf61e2562 case 17 => 0xc040b340 case 18 => 0x265e5a51 case 19 => 0xe9b6c7aa
    case 20 => 0xd62f105d case 21 => 0x02441453 case 22 => 0xd8a1e681 case 23 => 0xe7d3fbc8
    case 24 => 0x21e1cde6 case 25 => 0xc33707d6 case 26 => 0xf4d50d87 case 27 => 0x455a14ed
    case 28 => 0xa9e3e905 case 29 => 0xfcefa3f8 case 30 => 0x676f02d9 case _ => 0x8d2a4c8a
  }

  function Table3(i: nat): bv32 {
    match i
    case 32 => 0xfffa3942 case 33 => 0x8771f681 case 34 => 0x6d9d6122 case 35 => 0xfde5380c
    case 36 => 0xa4beea44 case 37 => 0x4bdecfa9 case 38 => 0xf6bb4b60 case 39 => 0xbebfbc70
    case 40 => 0x289b7ec6 case 41 => 0xeaa127fa case 42 => 0xd4ef3085 case 43 => 0x04881d05
    case 44 => 0xd9d4d039 case 45 => 0xe6db99e5 case 46 => 0x1fa27cf8 case _ => 0xc4ac5665
  }

  function Table4(i: nat): bv32 {
    match i
    case 48 => 0xf4292244 case 49 => 0x432aff97 case 50 => 0xab9423a7 case 51 => 0xfc93a039
    case 52 => 0x655b59c3 case 53 => 0x8f0ccc92 case 54 => 0xffeff47d case 55 => 0x85845dd1
    case 56 => 0x6fa87e4f case 57 => 0xfe2ce6e0 case 58 => 0xa3014314 case 59 => 0x4e0811a1
    case 60 => 0xf7537e82 case 61 => 0xbd3af235 case 62 => 0x2ad7d2bb case _ => 0xeb86d391
  }

  /** The table T of the RFC, T[1] first. */
  function Table(i: nat): bv32 {
    if i < 16 then Table1(i) else if i < 32 then Table2(i) else if i < 48 then Table3(i) else Table4(i)
  }

  /** Which word of the block the step takes. */
  function Index(i: nat): (k: nat)
    ensures k < 16
  {
    if i < 16 then i else if i < 32 then (5 * i + 1) % 16 else if i < 48 then (3 * i + 5) % 16 else 7 * i % 16
  }

  function Shift(i: nat): (s: bv6)
    ensures 4 <= s <= 23
  {
    var r := i % 4;
    if i < 16 then (if r == 0 then 7 else if r == 1 then 12 else if r == 2 then 17 else 22)
    else if i < 32 then (if r == 0 then 5 else if r == 1 then 9 else if r == 2 then 14 else 20)
    else if i < 48 then (if r == 0 then 4 else if r == 1 then 11 else if r == 2 then 16 else 23)
    else (if r == 0 then 6 else if r == 1 then 10 else if r == 2 then 15 else 21)
  }

  /** The auxiliary functions F, G, H and I of the RFC. */
  function Auxiliary(round: nat, x: bv32, y: bv32, z: bv32): bv32 {
    match round
    case 0 => (x & y) | (!x & z)
    case 1 => (x & z) | (y & !z)
    case 2 => x ^ y ^ z
    case _ => y ^ (x | !z)
  }

  /** a = b + ((a + F(b,c,d) + X[k] + T[i]) <<< s). */
  function RfcStep(x: Words, i: nat, st: Chain): bv32 {
    Plus(st[1], RotateLeft(Plus(Plus(Plus(st[0], Auxiliary(i / 16, st[1], st[2], st[3])), x[Index(i)]), Table(i)), Shift(i)))
  }

  function Compress(s: Chain, block: Block): Chain {
    Compressed(RfcStep, 64, s, block)
  }

  // ----- The code's own form -----

  function F1(x: bv32, y: bv32, z: bv32): bv32 {
    z ^ (x & (y ^ z))
  }

  function F2(x: bv32, y: bv32, z: bv32): bv32 {
    F1(z, x, y)
  }

  function F3(x: bv32, y: bv32, z: bv32): bv32 {
    x ^ y ^ z
  }

  function F4(x: bv32, y: bv32, z: bv32): bv32 {
    y ^ (x | !z)
  }

  /** MD5STEP, with the value of f in place of f. */
  function Step(w: bv32, f: bv32, x: bv32, data: bv32, constant: bv32, s: bv6): bv32
    requires s <= 32
  {
    Plus(RotateLeft(Plus(w, Plus(f, Plus(data, constant))), s), x)
  }

  lemma Chosen(x: bv32, y: bv32, z: bv32)
    ensures z ^ (x & (y ^ z)) == (x & y) | (!x & z)
  {
  }

  lemma ChosenBy(x: bv32, y: bv32, z: bv32)
    ensures y ^ (z & (x ^ y)) == (x & z) | (y & !z)
  {
  }

  lemma F1IsAuxiliary(x: bv32, y: bv32, z: bv32)
    ensures F1(x, y, z) == Auxiliary(0, x, y, z)
  {
    calc {
      F1(x, y, z);
      z ^ (x & (y ^ z));
      { Chosen(x, y, z); }
      (x & y) | (!x & z);
      Auxiliary(0, x, y, z);
    }
  }

  lemma F2IsAuxiliary(x: bv32, y: bv32, z: bv32)
    ensures F2(x, y, z) == Auxiliary(1, x, y, z)
  {
    calc {
      F2(x, y, z);
      y ^ (z & (x ^ y));
      { ChosenBy(x, y, z); }
      (x & z) | (y & !z);
      Auxiliary(1, x, y, z);
    }
  }

  lemma StepReassociated(w: bv32, f: bv32, x: bv32, data: bv32, constant: bv32, s: bv6)
    requires s <= 32
    ensures Step(w, f, x, data, constant, s) == Plus(x, RotateLeft(Plus(Plus(Plus(w, f), data), constant), s))
  {
    hide RotateLeft, Plus;
    PlusIsAssociative(f, data, constant);
    PlusIsAssociative(w, Plus(f, data), constant);
    PlusIsAssociative(w, f, data);
    PlusCommutes(x, RotateLeft(Plus(Plus(Plus(w, f), data), constant), s));
  }

  lemma Step1IsRfc(x: Words, i: nat, a: bv32, b: bv32, c: bv32, d: bv32)
    requires 0 <= i < 16
    ensures RfcStep(x, i, [a, b, c, d]) == Step(a, F1(b, c, d), b, x[Index(i)], Table(i), Shift(i))
  {
    hide Step, RotateLeft, Plus, Table, Index, Shift, Auxiliary, F1, F2;
    F1IsAuxiliary(b, c, d);
    StepReassociated(a, F1(b, c, d), b, x[Index(i)], Table(i), Shift(i));
  }

  lemma Step2IsRfc(x: Words, i: nat, a: bv32, b: bv32, c: bv32, d: bv32)
    requires 16 <= i < 32
    ensures RfcStep(x, i, [a, b, c, d]) == Step(a, F2(b, c, d), b, x[Index(i)], Table(i), Shift(i))
  {
    hide Step, RotateLeft, Plus, Table, Index, Shift, Auxiliary, F1, F2;
    F2IsAuxiliary(b, c, d);
    StepReassociated(a, F2(b, c, d), b, x[Index(i)], Table(i), Shift(i));
  }

  lemma Step3IsRfc(x: Words, i: nat, a: bv32, b: bv32, c: bv32, d: bv32)
    requires 32 <= i < 48
    ensures RfcStep(x, i, [a, b, c, d]) == Step(a, F3(b, c, d), b, x[Index(i)], Table(i), Shift(i))
  {
    hide Step, RotateLeft, Plus, Table, Index, Shift;
    StepReassociated(a, F3(b, c, d), b, x[Index(i)], Table(i), Shift(i));
  }

  lemma Step4IsRfc(x: Words, i: nat, a: bv32, b: bv32, c: bv32, d: bv32)
    requires 48 <= i < 64
    ensures RfcStep(x, i, [a, b, c, d]) == Step(a, F4(b, c, d), b, x[Index(i)], Table(i), Shift(i))
  {
    hide Step, RotateLeft, Plus, Table, Index, Shift;
    StepReassociated(a, F4(b, c, d), b, x[Index(i)], Table(i), Shift(i));
  }

  lemma Data0To3()
    ensures Index(0) == 0 && Table(0) == 0xd76aa478 && Shift(0) == 7
    ensures Index(1) == 1 && Table(1) == 0xe8c7b756 && Shift(1) == 12
    ensures Index(2) == 2 && Table(2) == 0x242070db && Shift(2) == 17
    ensures Index(3) == 3 && Table(3) == 0xc1bdceee && Shift(3) == 22
  {
  }

  method Steps0To3(x: Words, ghost st: Chain, a0: bv32, b0: bv32, c0: bv32, d0: bv32)
    returns (a: bv32, b: bv32, c: bv32, d: bv32)
    requires Run(RfcStep, x, st, 0) == [a0, b0, c0, d0]
    ensures Run(RfcStep, x, st, 4) == [a, b, c, d]
  {
    hide RfcStep, Step, F1, F2, F3, F4, Run, Index, Table, Shift;
    Data0To3();
    a, b, c, d := a0, b0, c0, d0;
    ghost var a1, b1, c1, d1 := FourSteps(RfcStep, x, st, 0, a, b, c, d);
    Step1IsRfc(x, 0, a, b, c, d);
    a := Step(a, F1(b, c, d), b, x[0], 0xd76aa478, 7);
    Step1IsRfc(x, 1, d, a, b, c);
    d := Step(d, F1(a, b, c), a, x[1], 0xe8c7b756, 12);
    Step1IsRfc(x, 2, c, d, a, b);
    c := Step(c, F1(d, a, b), d, x[2], 0x242070db, 17);
    Step1IsRfc(x, 3, b, c, d, a);
    b := Step(b, F1(c, d, a), c, x[3], 0xc1bdceee, 22);
  }

  lemma Data4To7()
    ensures Index(4) == 4 && Table(4) == 0xf57c0faf && Shift(4) == 7
    ensures Index(5) == 5 && Table(5) == 0x4787c62a && Shift(5) == 12
    ensures Index(6) == 6 && Table(6) == 0xa8304613 && Shift(6) == 17
    ensures Index(7) == 7 && Table(7) == 0xfd469501 && Shift(7) == 22
  {
  }

  method Steps4To7(x: Words, ghost st: Chain, a0: bv32, b0: bv32, c0: bv32, d0: bv32)
    returns (a: bv32, b: bv32, c: bv32, d: bv32)
    requires Run(RfcStep, x, st, 4) == [a0, b0, c0, d0]
    ensures Run(RfcStep, x, st, 8) == [a, b, c, d]
  {
    hide RfcStep, Step, F1, F2, F3, F4, Run, Index, Table, Shift;
    Data4To7();
    a, b, c, d := a0, b0, c0, d0;
    ghost var a1, b1, c1, d1 := FourSteps(RfcStep, x, st, 4, a, b, c, d);
    Step1IsRfc(x, 4, a, b, c, d);
    a := Step(a, F1(b, c, d), b, x[4], 0xf57c0faf, 7);
    Step1IsRfc(x, 5, d, a, b, c);
    d := Step(d, F1(a, b, c), a, x[5], 0x4787c62a, 12);
    Step1IsRfc(x, 6, c, d, a, b);
    c := Step(c, F1(d, a, b), d, x[6], 0xa8304613, 17);
    Step1IsRfc(x, 7, b, c, d, a);
    b := Step(b, F1(c, d, a), c, x[7], 0xfd469501, 22);
  }

  lemma Data8To11()
    ensures Index(8) == 8 && Table(8) == 0x698098d8 && Shift(8) == 7
    ensures Index(9) == 9 && Table(9) == 0x8b44f7af && Shift(9) == 12
    ensures Index(10) == 10 && Table(10) == 0xffff5bb1 && Shift(10) == 17
    ensures Index(11) == 11 && Table(11) == 0x895cd7be && Shift(11) == 22
  {
  }

  method Steps8To11(x: Words, ghost st: Chain, a0: bv32, b0: bv32, c0: bv32, d0: bv32)
    returns (a: bv32, b: bv32, c: bv32, d: bv32)
    requires Run(RfcStep, x, st, 8) == [a0, b0, c0, d0]
    ensures Run(RfcStep, x, st, 12) == [a, b, c, d]
  {
    hide RfcStep, Step, F1, F2, F3, F4, Run, Index, Table, Shift;
    Data8To11();
    a, b, c, d := a0, b0, c0, d0;
    ghost var a1, b1, c1, d1 := FourSteps(RfcStep, x, st, 8, a, b, c, d);
    Step1IsRfc(x, 8, a, b, c, d);
    a := Step(a, F1(b, c, d), b, x[8], 0x698098d8, 7);
    Step1IsRfc(x, 9, d, a, b, c);
    d := Step(d, F1(a, b, c), a, x[9], 0x8b44f7af, 12);
    Step1IsRfc(x, 10, c, d, a, b);
    c := Step(c, F1(d, a, b), d, x[10], 0xffff5bb1, 17);
    Step1IsRfc(x, 11, b, c, d, a);
    b := Step(b, F1(c, d, a), c, x[11], 0x895cd7be, 22);
  }

  lemma Data12To15()
    ensures Index(12) == 12 && Table(12) == 0x6b901122 && Shift(12) == 7
    ensures Index(13) == 13 && Table(13) == 0xfd987193 && Shift(13) == 12
    ensures Index(14) == 14 && Table(14) == 0xa679438e && Shift(14) == 17
    ensures Index(15) == 15 && Table(15) == 0x49b40821 && Shift(15) == 22
  {
  }

  method Steps12To15(x: Words, ghost st: Chain, a0: bv32, b0: bv32, c0: bv32, d0: bv32)
    returns (a: bv32, b: bv32, c: bv32, d: bv32)
    requires Run(RfcStep, x, st, 12) == [a0, b0, c0, d0]
    ensures Run(RfcStep, x, st, 16) == [a, b, c, d]
  {
    hide RfcStep, Step, F1, F2, F3, F4, Run, Index, Table, Shift;
    Data12To15();
    a, b, c, d := a0, b0, c0, d0;
    ghost var a1, b1, c1, d1 := FourSteps(RfcStep, x, st, 12, a, b, c, d);
    Step1IsRfc(x, 12, a, b, c, d);
    a := Step(a, F1(b, c, d), b, x[12], 0x6b901122, 7);
    Step1IsRfc(x, 13, d, a, b, c);
    d := Step(d, F1(a, b, c), a, x[13], 0xfd987193, 12);
    Step1IsRfc(x, 14, c, d, a, b);
    c := Step(c, F1(d, a, b), d, x[14], 0xa679438e, 17);
    Step1IsRfc(x, 15, b, c, d, a);
    b := Step(b, F1(c, d, a), c, x[15], 0x49b40821, 22);
  }

  lemma Data16To19()
    ensures Index(16) == 1 && Table(16) == 0xf61e2562 && Shift(16) == 5
    ensures Index(17) == 6 && Table(17) == 0xc040b340 && Shift(17) == 9
    ensures Index(18) == 11 && Table(18) == 0x265e5a51 && Shift(18) == 14
    ensures Index(19) == 0 && Table(19) == 0xe9b6c7aa && Shift(19) == 20
  {
  }

  method Steps16To19(x: Words, ghost st: Chain, a0: bv32, b0: bv32, c0: bv32, d0: bv32)
    returns (a: bv32, b: bv32, c: bv32, d: bv32)
    requires Run(RfcStep, x, st, 16) == [a0, b0, c0, d0]
    ensures Run(RfcStep, x, st, 20) == [a, b, c, d]
  {
    hide RfcStep, Step, F1, F2, F3, F4, Run, Index, Table, Shift;
    Data16To19();
    a, b, c, d := a0, b0, c0, d0;
    ghost var a1, b1, c1, d1 := FourSteps(RfcStep, x, st, 16, a, b, c, d);
    Step2IsRfc(x, 16, a, b, c, d);
    a := Step(a, F2(b, c, d), b, x[1], 0xf61e2562, 5);
    Step2IsRfc(x, 17, d, a, b, c);
    d := Step(d, F2(a, b, c), a, x[6], 0xc040b340, 9);
    Step2IsRfc(x, 18, c, d, a, b);
    c := Step(c, F2(d, a, b), d, x[11], 0x265e5a51, 14);
    Step2IsRfc(x, 19, b, c, d, a);
    b := Step(b, F2(c, d, a), c, x[0], 0xe9b6c7aa, 20);
  }

  lemma Data20To23()
    ensures Index(20) == 5 && Table(20) == 0xd62f105d && Shift(20) == 5
    ensures Index(21) == 10 && Table(21) == 0x02441453 && Shift(21) == 9
    ensures Index(22) == 15 && Table(22) == 0xd8a1e681 && Shift(22) == 14
    ensures Index(23) == 4 && Table(23) == 0xe7d3fbc8 && Shift(23) == 20
  {
  }

  method Steps20To23(x: Words, ghost st: Chain, a0: bv32, b0: bv32, c0: bv32, d0: bv32)
    returns (a: bv32, b: bv32, c: bv32, d: bv32)
    requires Run(RfcStep, x, st, 20) == [a0, b0, c0, d0]
    ensures Run(RfcStep, x, st, 24) == [a, b, c, d]
  {
    hide RfcStep, Step, F1, F2, F3, F4, Run, Index, Table, Shift;
    Data20To23();
    a, b, c, d := a0, b0, c0, d0;
    ghost var a1, b1, c1, d1 := FourSteps(RfcStep, x, st, 20, a, b, c, d);
    Step2IsRfc(x, 20, a, b, c, d);
    a := Step(a, F2(b, c, d), b, x[5], 0xd62f105d, 5);
    Step2IsRfc(x, 21, d, a, b, c);
    d := Step(d, F2(a, b, c), a, x[10], 0x02441453, 9);
    Step2IsRfc(x, 22, c, d, a, b);
    c := Step(c, F2(d, a, b), d, x[15], 0xd8a1e681, 14);
    Step2IsRfc(x, 23, b, c, d, a);
    b := Step(b, F2(c, d, a), c, x[4], 0xe7d3fbc8, 20);
  }

  lemma Data24To27()
    ensures Index(24) == 9 && Table(24) == 0x21e1cde6 && Shift(24) == 5
    ensures Index(25) == 14 && Table(25) == 0xc33707d6 && Shift(25) == 9
    ensures Index(26) == 3 && Table(26) == 0xf4d50d87 && Shift(26) == 14
    ensures Index(27) == 8 && Table(27) == 0x455a14ed && Shift(27) == 20
  {
  }

  method Steps24To27(x: Words, ghost st: Chain, a0: bv32, b0: bv32, c0: bv32, d0: bv32)
    returns (a: bv32, b: bv32, c: bv32, d: bv32)
    requires Run(RfcStep, x, st, 24) == [a0, b0, c0, d0]
    ensures Run(RfcStep, x, st, 28) == [a, b, c, d]
  {
    hide RfcStep, Step, F1, F2, F3, F4, Run, Index, Table, Shift;
    Data24To27();
    a, b, c, d := a0, b0, c0, d0;
    ghost var a1, b1, c1, d1 := FourSteps(RfcStep, x, st, 24, a, b, c, d);
    Step2IsRfc(x, 24, a, b, c, d);
    a := Step(a, F2(b, c, d), b, x[9], 0x21e1cde6, 5);
    Step2IsRfc(x, 25, d, a, b, c);
    d := Step(d, F2(a, b, c), a, x[14], 0xc33707d6, 9);
    Step2IsRfc(x, 26, c, d, a, b);
    c := Step(c, F2(d, a, b), d, x[3], 0xf4d50d87, 14);
    Step2IsRfc(x, 27, b, c, d, a);
    b := Step(b, F2(c, d, a), c, x[8], 0x455a14ed, 20);
  }

  lemma Data28To31()
    ensures Index(28) == 13 && Table(28) == 0xa9e3e905 && Shift(28) == 5
    ensures Index(29) == 2 && Table(29) == 0xfcefa3f8 && Shift(29) == 9
    ensures Index(30) == 7 && Table(30) == 0x676f02d9 && Shift(30) == 14
    ensures Index(31) == 12 && Table(31) == 0x8d2a4c8a && Shift(31) == 20
  {
  }

  method Steps28To31(x: Words, ghost st: Chain, a0: bv32, b0: bv32, c0: bv32, d0: bv32)
    returns (a: bv32, b: bv32, c: bv32, d: bv32)
    requires Run(RfcStep, x, st, 28) == [a0, b0, c0, d0]
    ensures Run(RfcStep, x, st, 32) == [a, b, c, d]
  {
    hide RfcStep, Step, F1, F2, F3, F4, Run, Index, Table, Shift;
    Data28To31();
    a, b, c, d := a0, b0, c0, d0;
    ghost var a1, b1, c1, d1 := FourSteps(RfcStep, x, st, 28, a, b, c, d);
    Step2IsRfc(x, 28, a, b, c, d);
    a := Step(a, F2(b, c, d), b, x[13], 0xa9e3e905, 5);
    Step2IsRfc(x, 29, d, a, b, c);
    d := Step(d, F2(a, b, c), a, x[2], 0xfcefa3f8, 9);
    Step2IsRfc(x, 30, c, d, a, b);
    c := Step(c, F2(d, a, b), d, x[7], 0x676f02d9, 14);
    Step2IsRfc(x, 31, b, c, d, a);
    b := Step(b, F2(c, d, a), c, x[12], 0x8d2a4c8a, 20);
  }

  lemma Data32To35()
    ensures Index(32) == 5 && Table(32) == 0xfffa3942 && Shift(32) == 4
    ensures Index(33) == 8 && Table(33) == 0x8771f681 && Shift(33) == 11
    ensures Index(34) == 11 && Table(34) == 0x6d9d6122 && Shift(34) == 16
    ensures Index(35) == 14 && Table(35) == 0xfde5380c && Shift(35) == 23
  {
  }

  method Steps32To35(x: Words, ghost st: Chain, a0: bv32, b0: bv32, c0: bv32, d0: bv32)
    returns (a: bv32, b: bv32, c: bv32, d: bv32)
    requires Run(RfcStep, x, st, 32) == [a0, b0, c0, d0]
    ensures Run(RfcStep, x, st, 36) == [a, b, c, d]
  {
    hide RfcStep, Step, F1, F2, F3, F4, Run, Index, Table, Shift;
    Data32To35();
    a, b, c, d := a0, b0, c0, d0;
    ghost var a1, b1, c1, d1 := FourSteps(RfcStep, x, st, 32, a, b, c, d);
    Step3IsRfc(x, 32, a, b, c, d);
    a := Step(a, F3(b, c, d), b, x[5], 0xfffa3942, 4);
    Step3IsRfc(x, 33, d, a, b, c);
    d := Step(d, F3(a, b, c), a, x[8], 0x8771f681, 11);
    Step3IsRfc(x, 34, c, d, a, b);
    c := Step(c, F3(d, a, b), d, x[11], 0x6d9d6122, 16);
    Step3IsRfc(x, 35, b, c, d, a);
    b := Step(b, F3(c, d, a), c, x[14], 0xfde5380c, 23);
  }

  lemma Data36To39()
    ensures Index(36) == 1 && Table(36) == 0xa4beea44 && Shift(36) == 4
    ensures Index(37) == 4 && Table(37) == 0x4bdecfa9 && Shift(37) == 11
    ensures Index(38) == 7 && Table(38) == 0xf6bb4b60 && Shift(38) == 16
    ensures Index(39) == 10 && Table(39) == 0xbebfbc70 && Shift(39) == 23
  {
  }

  method Steps36To39(x: Words, ghost st: Chain, a0: bv32, b0: bv32, c0: bv32, d0: bv32)
    returns (a: bv32, b: bv32, c: bv32, d: bv32)
    requires Run(RfcStep, x, st, 36) == [a0, b0, c0, d0]
    ensures Run(RfcStep, x, st, 40) == [a, b, c, d]
  {
    hide RfcStep, Step, F1, F2, F3, F4, Run, Index, Table, Shift;
    Data36To39();
    a, b, c, d := a0, b0, c0, d0;
    ghost var a1, b1, c1, d1 := FourSteps(RfcStep, x, st, 36, a, b, c, d);
    Step3IsRfc(x, 36, a, b, c, d);
    a := Step(a, F3(b, c, d), b, x[1], 0xa4beea44, 4);
    Step3IsRfc(x, 37, d, a, b, c);
    d := Step(d, F3(a, b, c), a, x[4], 0x4bdecfa9, 11);
    Step3IsRfc(x, 38, c, d, a, b);
    c := Step(c, F3(d, a, b), d, x[7], 0xf6bb4b60, 16);
    Step3IsRfc(x, 39, b, c, d, a);
    b := Step(b, F3(c, d, a), c, x[10], 0xbebfbc70, 23);
  }

  lemma Data40To43()
    ensures Index(40) == 13 && Table(40) == 0x289b7ec6 && Shift(40) == 4
    ensures Index(41) == 0 && Table(41) == 0xeaa127fa && Shift(41) == 11
    ensures Index(42) == 3 && Table(42) == 0xd4ef3085 && Shift(42) == 16
    ensures Index(43) == 6 && Table(43) == 0x04881d05 && Shift(43) == 23
  {
  }

  method Steps40To43(x: Words, ghost st: Chain, a0: bv32, b0: bv32, c0: bv32, d0: bv32)
    returns (a: bv32, b: bv32, c: bv32, d: bv32)
    requires Run(RfcStep, x, st, 40) == [a0, b0, c0, d0]
    ensures Run(RfcStep, x, st, 44) == [a, b, c, d]
  {
    hide RfcStep, Step, F1, F2, F3, F4, Run, Index, Table, Shift;
    Data40To43();
    a, b, c, d := a0, b0, c0, d0;
    ghost var a1, b1, c1, d1 := FourSteps(RfcStep, x, st, 40, a, b, c, d);
    Step3IsRfc(x, 40, a, b, c, d);
    a := Step(a, F3(b, c, d), b, x[13], 0x289b7ec6, 4);
    Step3IsRfc(x, 41, d, a, b, c);
    d := Step(d, F3(a, b, c), a, x[0], 0xeaa127fa, 11);
    Step3IsRfc(x, 42, c, d, a, b);
    c := Step(c, F3(d, a, b), d, x[3], 0xd4ef3085, 16);
    Step3IsRfc(x, 43, b, c, d, a);
    b := Step(b, F3(c, d, a), c, x[6], 0x04881d05, 23);
  }

  lemma Data44To47()
    ensures Index(44) == 9 && Table(44) == 0xd9d4d039 && Shift(44) == 4
    ensures Index(45) == 12 && Table(45) == 0xe6db99e5 && Shift(45) == 11
    ensures Index(46) == 15 && Table(46) == 0x1fa27cf8 && Shift(46) == 16
    ensures Index(47) == 2 && Table(47) == 0xc4ac5665 && Shift(47) == 23
  {
  }

  method Steps44To47(x: Words, ghost st: Chain, a0: bv32, b0: bv32, c0: bv32, d0: bv32)
    returns (a: bv32, b: bv32, c: bv32, d: bv32)
    requires Run(RfcStep, x, st, 44) == [a0, b0, c0, d0]
    ensures Run(RfcStep, x, st, 48) == [a, b, c, d]
  {
    hide RfcStep, Step, F1, F2, F3, F4, Run, Index, Table, Shift;
    Data44To47();
    a, b, c, d := a0, b0, c0, d0;
    ghost var a1, b1, c1, d1 := FourSteps(RfcStep, x, st, 44, a, b, c, d);
    Step3IsRfc(x, 44, a, b, c, d);
    a := Step(a, F3(b, c, d), b, x[9], 0xd9d4d039, 4);
    Step3IsRfc(x, 45, d, a, b, c);
    d := Step(d, F3(a, b, c), a, x[12], 0xe6db99e5, 11);
    Step3IsRfc(x, 46, c, d, a, b);
    c := Step(c, F3(d, a, b), d, x[15], 0x1fa27cf8, 16);
    Step3IsRfc(x, 47, b, c, d, a);
    b := Step(b, F3(c, d, a), c, x[2], 0xc4ac5665, 23);
  }

  lemma Data48To51()
    ensures Index(48) == 0 && Table(48) == 0xf4292244 && Shift(48) == 6
    ensures Index(49) == 7 && Table(49) == 0x432aff97 && Shift(49) == 10
    ensures Index(50) == 14 && Table(50) == 0xab9423a7 && Shift(50) == 15
    ensures Index(51) == 5 && Table(51) == 0xfc93a039 && Shift(51) == 21
  {
  }

  method Steps48To51(x: Words, ghost st: Chain, a0: bv32, b0: bv32, c0: bv32, d0: bv32)
    returns (a: bv32, b: bv32, c: bv32, d: bv32)
    requires Run(RfcStep, x, st, 48) == [a0, b0, c0, d0]
    ensures Run(RfcStep, x, st, 52) == [a, b, c, d]
  {
    hide RfcStep, Step, F1, F2, F3, F4, Run, Index, Table, Shift;
    Data48To51();
    a, b, c, d := a0, b0, c0, d0;
    ghost var a1, b1, c1, d1 := FourSteps(RfcStep, x, st, 48, a, b, c, d);
    Step4IsRfc(x, 48, a, b, c, d);
    a := Step(a, F4(b, c, d), b, x[0], 0xf4292244, 6);
    Step4IsRfc(x, 49, d, a, b, c);
    d := Step(d, F4(a, b, c), a, x[7], 0x432aff97, 10);
    Step4IsRfc(x, 50, c, d, a, b);
    c := Step(c, F4(d, a, b), d, x[14], 0xab9423a7, 15);
    Step4IsRfc(x, 51, b, c, d, a);
    b := Step(b, F4(c, d, a), c, x[5], 0xfc93a039, 21);
  }

  lemma Data52To55()
    ensures Index(52) == 12 && Table(52) == 0x655b59c3 && Shift(52) == 6
    ensures Index(53) == 3 && Table(53) == 0x8f0ccc92 && Shift(53) == 10
    ensures Index(54) == 10 && Table(54) == 0xffeff47d && Shift(54) == 15
    ensures Index(55) == 1 && Table(55) == 0x85845dd1 && Shift(55) == 21
  {
  }

  method Steps52To55(x: Words, ghost st: Chain, a0: bv32, b0: bv32, c0: bv32, d0: bv32)
    returns (a: bv32, b: bv32, c: bv32, d: bv32)
    requires Run(RfcStep, x, st, 52) == [a0, b0, c0, d0]
    ensures Run(RfcStep, x, st, 56) == [a, b, c, d]
  {
    hide RfcStep, Step, F1, F2, F3, F4, Run, Index, Table, Shift;
    Data52To55();
    a, b, c, d := a0, b0, c0, d0;
    ghost var a1, b1, c1, d1 := FourSteps(RfcStep, x, st, 52, a, b, c, d);
    Step4IsRfc(x, 52, a, b, c, d);
    a := Step(a, F4(b, c, d), b, x[12], 0x655b59c3, 6);
    Step4IsRfc(x, 53, d, a, b, c);
    d := Step(d, F4(a, b, c), a, x[3], 0x8f0ccc92, 10);
    Step4IsRfc(x, 54, c, d, a, b);
    c := Step(c, F4(d, a, b), d, x[10], 0xffeff47d, 15);
    Step4IsRfc(x, 55, b, c, d, a);
    b := Step(b, F4(c, d, a), c, x[1], 0x85845dd1, 21);
  }

  lemma Data56To59()
    ensures Index(56) == 8 && Table(56) == 0x6fa87e4f && Shift(56) == 6
    ensures Index(57) == 15 && Table(57) == 0xfe2ce6e0 && Shift(57) == 10
    ensures Index(58) == 6 && Table(58) == 0xa3014314 && Shift(58) == 15
    ensures Index(59) == 13 && Table(59) == 0x4e0811a1 && Shift(59) == 21
  {
  }

  method Steps56To59(x: Words, ghost st: Chain, a0: bv32, b0: bv32, c0: bv32, d0: bv32)
    returns (a: bv32, b: bv32, c: bv32, d: bv32)
    requires Run(RfcStep, x, st, 56) == [a0, b0, c0, d0]
    ensures Run(RfcStep, x, st, 60) == [a, b, c, d]
  {
    hide RfcStep, Step, F1, F2, F3, F4, Run, Index, Table, Shift;
    Data56To59();
    a, b, c, d := a0, b0, c0, d0;
    ghost var a1, b1, c1, d1 := FourSteps(RfcStep, x, st, 56, a, b, c, d);
    Step4IsRfc(x, 56, a, b, c, d);
    a := Step(a, F4(b, c, d), b, x[8], 0x6fa87e4f, 6);
    Step4IsRfc(x, 57, d, a, b, c);
    d := Step(d, F4(a, b, c), a, x[15], 0xfe2ce6e0, 10);
    Step4IsRfc(x, 58, c, d, a, b);
    c := Step(c, F4(d, a, b), d, x[6], 0xa3014314, 15);
    Step4IsRfc(x, 59, b, c, d, a);
    b := Step(b, F4(c, d, a), c, x[13], 0x4e0811a1, 21);
  }

  lemma Data60To63()
    ensures Index(60) == 4 && Table(60) == 0xf7537e82 && Shift(60) == 6
    ensures Index(61) == 11 && Table(61) == 0xbd3af235 && Shift(61) == 10
    ensures Index(62) == 2 && Table(62) == 0x2ad7d2bb && Shift(62) == 15
    ensures Index(63) == 9 && Table(63) == 0xeb86d391 && Shift(63) == 21
  {
  }

  method Steps60To63(x: Words, ghost st: Chain, a0: bv32, b0: bv32, c0: bv32, d0: bv32)
    returns (a: bv32, b: bv32, c: bv32, d: bv32)
    requires Run(RfcStep, x, st, 60) == [a0, b0, c0, d0]
    ensures Run(RfcStep, x, st, 64) == [a, b, c, d]
  {
    hide RfcStep, Step, F1, F2, F3, F4, Run, Index, Table, Shift;
    Data60To63();
    a, b, c, d := a0, b0, c0, d0;
    ghost var a1, b1, c1, d1 := FourSteps(RfcStep, x, st, 60, a, b, c, d);
    Step4IsRfc(x, 60, a, b, c, d);
    a := Step(a, F4(b, c, d), b, x[4], 0xf7537e82, 6);
    Step4IsRfc(x, 61, d, a, b, c);
    d := Step(d, F4(a, b, c), a, x[11], 0xbd3af235, 10);
    Step4IsRfc(x, 62, c, d, a, b);
    c := Step(c, F4(d, a, b), d, x[2], 0x2ad7d2bb, 15);
    Step4IsRfc(x, 63, b, c, d, a);
    b := Step(b, F4(c, d, a), c, x[9], 0xeb86d391, 21);
  }

  /** MD5Transform. */
  method Transform(buf: array<bv32>, block: array<bv8>)
    requires buf.Length == 4 && block.Length == 64
    modifies buf
    ensures buf[..] == Compress(old(buf[..]), block[..])
  {
    hide Run, Plus, Decoded;
    ghost var st: Chain := buf[..];
    var x := Decoded(block[..]);
    var a, b, c, d := buf[0], buf[1], buf[2], buf[3];
    StartOfRun(x, st);
    a, b, c, d := Steps0To3(x, st, a, b, c, d);
    a, b, c, d := Steps4To7(x, st, a, b, c, d);
    a, b, c, d := Steps8To11(x, st, a, b, c, d);
    a, b, c, d := Steps12To15(x, st, a, b, c, d);
    a, b, c, d := Steps16To19(x, st, a, b, c, d);
    a, b, c, d := Steps20To23(x, st, a, b, c, d);
    a, b, c, d := Steps24To27(x, st, a, b, c, d);
    a, b, c, d := Steps28To31(x, st, a, b, c, d);
    a, b, c, d := Steps32To35(x, st, a, b, c, d);
    a, b, c, d := Steps36To39(x, st, a, b, c, d);
    a, b, c, d := Steps40To43(x, st, a, b, c, d);
    a, b, c, d := Steps44To47(x, st, a, b, c, d);
    a, b, c, d := Steps48To51(x, st, a, b, c, d);
    a, b, c, d := Steps52To55(x, st, a, b, c, d);
    a, b, c, d := Steps56To59(x, st, a, b, c, d);
    a, b, c, d := Steps60To63(x, st, a, b, c, d);
    buf[0] := Plus(buf[0], a);
    buf[1] := Plus(buf[1], b);
    buf[2] := Plus(buf[2], c);
    buf[3] := Plus(buf[3], d);
  }

  lemma StartOfRun(x: Words, st: Chain)
    ensures Run(RfcStep, x, st, 0) == [st[0], st[1], st[2], st[3]]
  {
  }
}
