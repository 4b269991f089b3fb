/** The digest that section A.5 of RFC 1321 gives for the letters and digits, computed by the steps of the RFC. */
module Md5Vector {
  import opened Hashing
  import opened Md5Steps
  import opened SuiteMessage
  import Md5

  /** A step with the value that it is known to give. */
  lemma Next(x: Words, st: Chain, i: nat, a: bv32, b: bv32, c: bv32, d: bv32, value: bv32)
    requires Run(RfcStep, x, st, i) == [a, b, c, d] && RfcStep(x, i, [a, b, c, d]) == value
    ensures Run(RfcStep, x, st, i + 1) == [d, value, b, c]
  {
    hide RfcStep;
  }

  lemma Begin1()
    ensures Run(RfcStep, WORDS1, IV, 0) == [0x67452301, 0xefcdab89, 0x98badcfe, 0x10325476]
  {
  }

  lemma Block1Steps16()
    ensures Run(RfcStep, WORDS1, IV, 16) == [0x3cbdcd45, 0x5d38e690, 0xfa148c8a, 0xb8dec763]
  {
    hide Run, Table, Index, Shift, WORDS1, IV;
    Words1Are();
    Begin1();
    Data0To3();
    Next(WORDS1, IV, 0, 0x67452301, 0xefcdab89, 0x98badcfe, 0x10325476, 0xc6c10796);
    Next(WORDS1, IV, 1, 0x10325476, 0xc6c10796, 0xefcdab89, 0x98badcfe, 0x99a09999);
    Next(WORDS1, IV, 2, 0x98badcfe, 0x99a09999, 0xc6c10796, 0xefcdab89, 0x11067980);
    Next(WORDS1, IV, 3, 0xefcdab89, 0x11067980, 0x99a09999, 0xc6c10796, 0x27bce07a);
    Data4To7();
    Next(WORDS1, IV, 4, 0xc6c10796, 0x27bce07a, 0x11067980, 0x99a09999, 0xf22e6c4e);
    Next(WORDS1, IV, 5, 0x99a09999, 0xf22e6c4e, 0x27bce07a, 0x11067980, 0xb4ac9218);
    Next(WORDS1, IV, 6, 0x11067980, 0xb4ac9218, 0xf22e6c4e, 0x27bce07a, 0xa95a2fc0);
    Next(WORDS1, IV, 7, 0x27bce07a, 0xa95a2fc0, 0xb4ac9218, 0xf22e6c4e, 0xa4799506);
    Data8To11();
    Next(WORDS1, IV, 8, 0xf22e6c4e, 0xa4799506, 0xa95a2fc0, 0xb4ac9218, 0x1eb3e7c1);
    Next(WORDS1, IV, 9, 0xb4ac9218, 0x1eb3e7c1, 0xa4799506, 0xa95a2fc0, 0xa6e70cfe);
    Next(WORDS1, IV, 10, 0xa95a2fc0, 0xa6e70cfe, 0x1eb3e7c1, 0xa4799506, 0xca27520b);
    Next(WORDS1, IV, 11, 0xa4799506, 0xca27520b, 0xa6e70cfe, 0x1eb3e7c1, 0x8a7612ec);
    Data12To15();
    Next(WORDS1, IV, 12, 0x1eb3e7c1, 0x8a7612ec, 0xca27520b, 0xa6e70cfe, 0x3cbdcd45);
    Next(WORDS1, IV, 13, 0xa6e70cfe, 0x3cbdcd45, 0x8a7612ec, 0xca27520b, 0xb8dec763);
    Next(WORDS1, IV, 14, 0xca27520b, 0xb8dec763, 0x3cbdcd45, 0x8a7612ec, 0xfa148c8a);
    Next(WORDS1, IV, 15, 0x8a7612ec, 0xfa148c8a, 0xb8dec763, 0x3cbdcd45, 0x5d38e690);
  }

  lemma Block1Steps32()
    ensures Run(RfcStep, WORDS1, IV, 32) == [0x9b085fa9, 0xdd789ecc, 0x5993248f, 0x4400a9bd]
  {
    hide Run, Table, Index, Shift, WORDS1, IV;
    Words1Are();
    Block1Steps16();
    Data16To19();
    Next(WORDS1, IV, 16, 0x3cbdcd45, 0x5d38e690, 0xfa148c8a, 0xb8dec763, 0x04b9d52a);
    Next(WORDS1, IV, 17, 0xb8dec763, 0x04b9d52a, 0x5d38e690, 0xfa148c8a, 0x783002eb);
    Next(WORDS1, IV, 18, 0xfa148c8a, 0x783002eb, 0x04b9d52a, 0x5d38e690, 0xd3ee3ed1);
    Next(WORDS1, IV, 19, 0x5d38e690, 0xd3ee3ed1, 0x783002eb, 0x04b9d52a, 0x47ae7c81);
    Data20To23();
    Next(WORDS1, IV, 20, 0x04b9d52a, 0x47ae7c81, 0xd3ee3ed1, 0x783002eb, 0x2d7d8a3f);
    Next(WORDS1, IV, 21, 0x783002eb, 0x2d7d8a3f, 0x47ae7c81, 0xd3ee3ed1, 0xd1210823);
    Next(WORDS1, IV, 22, 0xd3ee3ed1, 0xd1210823, 0x2d7d8a3f, 0x47ae7c81, 0x4b534dc3);
    Next(WORDS1, IV, 23, 0x47ae7c81, 0x4b534dc3, 0xd1210823, 0x2d7d8a3f, 0x75292030);
    Data24To27();
    Next(WORDS1, IV, 24, 0x2d7d8a3f, 0x75292030, 0x4b534dc3, 0xd1210823, 0x9d2a6e33);
    Next(WORDS1, IV, 25, 0xd1210823, 0x9d2a6e33, 0x75292030, 0x4b534dc3, 0x0e8d2e44);
    Next(WORDS1, IV, 26, 0x4b534dc3, 0x0e8d2e44, 0x9d2a6e33, 0x75292030, 0xd473b564);
    Next(WORDS1, IV, 27, 0x75292030, 0xd473b564, 0x0e8d2e44, 0x9d2a6e33, 0xf2ff6ea0);
    Data28To31();
    Next(WORDS1, IV, 28, 0x9d2a6e33, 0xf2ff6ea0, 0xd473b564, 0x0e8d2e44, 0x9b085fa9);
    Next(WORDS1, IV, 29, 0x0e8d2e44, 0x9b085fa9, 0xf2ff6ea0, 0xd473b564, 0x4400a9bd);
    Next(WORDS1, IV, 30, 0xd473b564, 0x4400a9bd, 0x9b085fa9, 0xf2ff6ea0, 0x5993248f);
    Next(WORDS1, IV, 31, 0xf2ff6ea0, 0x5993248f, 0x4400a9bd, 0x9b085fa9, 0xdd789ecc);
  }

  lemma Block1Steps48()
    ensures Run(RfcStep, WORDS1, IV, 48) == [0x2dbee21d, 0xf166f514, 0xee46e961, 0xe95c3a43]
  {
    hide Run, Table, Index, Shift, WORDS1, IV;
    Words1Are();
    Block1Steps32();
    Data32To35();
    Next(WORDS1, IV, 32, 0x9b085fa9, 0xdd789ecc, 0x5993248f, 0x4400a9bd, 0x21c8d2b7);
    Next(WORDS1, IV, 33, 0x4400a9bd, 0x21c8d2b7, 0xdd789ecc, 0x5993248f, 0x1d55a18e);
    Next(WORDS1, IV, 34, 0x5993248f, 0x1d55a18e, 0x21c8d2b7, 0xdd789ecc, 0x056ec119);
    Next(WORDS1, IV, 35, 0xdd789ecc, 0x056ec119, 0x1d55a18e, 0x21c8d2b7, 0x1b9504f8);
    Data36To39();
    Next(WORDS1, IV, 36, 0x21c8d2b7, 0x1b9504f8, 0x056ec119, 0x1d55a18e, 0x436b7fe9);
    Next(WORDS1, IV, 37, 0x1d55a18e, 0x436b7fe9, 0x1b9504f8, 0x056ec119, 0x075800c1);
    Next(WORDS1, IV, 38, 0x056ec119, 0x075800c1, 0x436b7fe9, 0x1b9504f8, 0xf404c2f6);
    Next(WORDS1, IV, 39, 0x1b9504f8, 0xf404c2f6, 0x075800c1, 0x436b7fe9, 0xcf0341ed);
    Data40To43();
    Next(WORDS1, IV, 40, 0x436b7fe9, 0xcf0341ed, 0xf404c2f6, 0x075800c1, 0x888e7d8a);
    Next(WORDS1, IV, 41, 0x075800c1, 0x888e7d8a, 0xcf0341ed, 0xf404c2f6, 0xbbdaecd8);
    Next(WORDS1, IV, 42, 0xf404c2f6, 0xbbdaecd8, 0x888e7d8a, 0xcf0341ed, 0xce620273);
    Next(WORDS1, IV, 43, 0xcf0341ed, 0xce620273, 0xbbdaecd8, 0x888e7d8a, 0x047b9419);
    Data44To47();
    Next(WORDS1, IV, 44, 0x888e7d8a, 0x047b9419, 0xce620273, 0xbbdaecd8, 0x2dbee21d);
    Next(WORDS1, IV, 45, 0xbbdaecd8, 0x2dbee21d, 0x047b9419, 0xce620273, 0xe95c3a43);
    Next(WORDS1, IV, 46, 0xce620273, 0xe95c3a43, 0x2dbee21d, 0x047b9419, 0xee46e961);
    Next(WORDS1, IV, 47, 0x047b9419, 0xee46e961, 0xe95c3a43, 0x2dbee21d, 0xf166f514);
  }

  lemma Block1Steps64()
    ensures Run(RfcStep, WORDS1, IV, 64) == [0x1cb80f0a, 0xef2e3a46, 0x10f68731, 0xea3d3eb4]
  {
    hide Run, Table, Index, Shift, WORDS1, IV;
    Words1Are();
    Block1Steps48();
    Data48To51();
    Next(WORDS1, IV, 48, 0x2dbee21d, 0xf166f514, 0xee46e961, 0xe95c3a43, 0xe47fd4f3);
    Next(WORDS1, IV, 49, 0xe95c3a43, 0xe47fd4f3, 0xf166f514, 0xee46e961, 0xfb887751);
    Next(WORDS1, IV, 50, 0xee46e961, 0xfb887751, 0xe47fd4f3, 0xf166f514, 0xf22aedcc);
    Next(WORDS1, IV, 51, 0xf166f514, 0xf22aedcc, 0xfb887751, 0xe47fd4f3, 0x7a13bc5c);
    Data52To55();
    Next(WORDS1, IV, 52, 0xe47fd4f3, 0x7a13bc5c, 0xf22aedcc, 0xfb887751, 0xa691d430);
    Next(WORDS1, IV, 53, 0xfb887751, 0xa691d430, 0x7a13bc5c, 0xf22aedcc, 0x528452f2);
    Next(WORDS1, IV, 54, 0xf22aedcc, 0x528452f2, 0xa691d430, 0x7a13bc5c, 0x3fc23df6);
    Next(WORDS1, IV, 55, 0x7a13bc5c, 0x3fc23df6, 0x528452f2, 0xa691d430, 0xefb0e72f);
    Data56To59();
    Next(WORDS1, IV, 56, 0xa691d430, 0xefb0e72f, 0x3fc23df6, 0x528452f2, 0x27145703);
    Next(WORDS1, IV, 57, 0x528452f2, 0x27145703, 0xefb0e72f, 0x3fc23df6, 0x21a11069);
    Next(WORDS1, IV, 58, 0x3fc23df6, 0x21a11069, 0x27145703, 0xefb0e72f, 0x374fbe79);
    Next(WORDS1, IV, 59, 0xefb0e72f, 0x374fbe79, 0x21a11069, 0x27145703, 0x49d9a5b4);
    Data60To63();
    Next(WORDS1, IV, 60, 0x27145703, 0x49d9a5b4, 0x374fbe79, 0x21a11069, 0x1cb80f0a);
    Next(WORDS1, IV, 61, 0x21a11069, 0x1cb80f0a, 0x49d9a5b4, 0x374fbe79, 0xea3d3eb4);
    Next(WORDS1, IV, 62, 0x374fbe79, 0xea3d3eb4, 0x1cb80f0a, 0x49d9a5b4, 0x10f68731);
    Next(WORDS1, IV, 63, 0x49d9a5b4, 0x10f68731, 0xea3d3eb4, 0x1cb80f0a, 0xef2e3a46);
  }

  const CHAIN1: Chain := [0x83fd320b, 0xdefbe5cf, 0xa9b1642f, 0xfa6f932a]

  lemma Begin2()
    ensures Run(RfcStep, WORDS2, CHAIN1, 0) == [0x83fd320b, 0xdefbe5cf, 0xa9b1642f, 0xfa6f932a]
  {
  }

  lemma Block2Steps16()
    ensures Run(RfcStep, WORDS2, CHAIN1, 16) == [0xa70737da, 0xa36f556f, 0x96f6586e, 0x5473f8a7]
  {
    hide Run, Table, Index, Shift, WORDS2, CHAIN1;
    Words2Are();
    Begin2();
    Data0To3();
    Next(WORDS2, CHAIN1, 0, 0x83fd320b, 0xdefbe5cf, 0xa9b1642f, 0xfa6f932a, 0xeda23ed1);
    Next(WORDS2, CHAIN1, 1, 0xfa6f932a, 0xeda23ed1, 0xdefbe5cf, 0xa9b1642f, 0x989939cf);
    Next(WORDS2, CHAIN1, 2, 0xa9b1642f, 0x989939cf, 0xeda23ed1, 0xdefbe5cf, 0x3c307338);
    Next(WORDS2, CHAIN1, 3, 0xdefbe5cf, 0x3c307338, 0x989939cf, 0xeda23ed1, 0xddcf0634);
    Data4To7();
    Next(WORDS2, CHAIN1, 4, 0xeda23ed1, 0xddcf0634, 0x3c307338, 0x989939cf, 0x75144433);
    Next(WORDS2, CHAIN1, 5, 0x989939cf, 0x75144433, 0xddcf0634, 0x3c307338, 0xc8875807);
    Next(WORDS2, CHAIN1, 6, 0x3c307338, 0xc8875807, 0x75144433, 0xddcf0634, 0xc783cb60);
    Next(WORDS2, CHAIN1, 7, 0xddcf0634, 0xc783cb60, 0xc8875807, 0x75144433, 0x99b6b699);
    Data8To11();
    Next(WORDS2, CHAIN1, 8, 0x75144433, 0x99b6b699, 0xc783cb60, 0xc8875807, 0xa60a3f69);
    Next(WORDS2, CHAIN1, 9, 0xc8875807, 0xa60a3f69, 0x99b6b699, 0xc783cb60, 0xaa6630be);
    Next(WORDS2, CHAIN1, 10, 0xc783cb60, 0xaa6630be, 0xa60a3f69, 0x99b6b699, 0x64db26e9);
    Next(WORDS2, CHAIN1, 11, 0x99b6b699, 0x64db26e9, 0xaa6630be, 0xa60a3f69, 0x64cc7c5a);
    Data12To15();
    Next(WORDS2, CHAIN1, 12, 0xa60a3f69, 0x64cc7c5a, 0x64db26e9, 0xaa6630be, 0xa70737da);
    Next(WORDS2, CHAIN1, 13, 0xaa6630be, 0xa70737da, 0x64cc7c5a, 0x64db26e9, 0x5473f8a7);
    Next(WORDS2, CHAIN1, 14, 0x64db26e9, 0x5473f8a7, 0xa70737da, 0x64cc7c5a, 0x96f6586e);
    Next(WORDS2, CHAIN1, 15, 0x64cc7c5a, 0x96f6586e, 0x5473f8a7, 0xa70737da, 0xa36f556f);
  }

  lemma Block2Steps32()
    ensures Run(RfcStep, WORDS2, CHAIN1, 32) == [0x24eba695, 0x9c03e2e8, 0x10c42a2f, 0x4bd0378b]
  {
    hide Run, Table, Index, Shift, WORDS2, CHAIN1;
    Words2Are();
    Block2Steps16();
    Data16To19();
    Next(WORDS2, CHAIN1, 16, 0xa70737da, 0xa36f556f, 0x96f6586e, 0x5473f8a7, 0xa5050ad3);
    Next(WORDS2, CHAIN1, 17, 0x5473f8a7, 0xa5050ad3, 0xa36f556f, 0x96f6586e, 0x28776046);
    Next(WORDS2, CHAIN1, 18, 0x96f6586e, 0x28776046, 0xa5050ad3, 0xa36f556f, 0x27dcd8b4);
    Next(WORDS2, CHAIN1, 19, 0xa36f556f, 0x27dcd8b4, 0x28776046, 0xa5050ad3, 0x82b8827c);
    Data20To23();
    Next(WORDS2, CHAIN1, 20, 0xa5050ad3, 0x82b8827c, 0x27dcd8b4, 0x28776046, 0xe04f070c);
    Next(WORDS2, CHAIN1, 21, 0x28776046, 0xe04f070c, 0x82b8827c, 0x27dcd8b4, 0x2f3cd2a2);
    Next(WORDS2, CHAIN1, 22, 0x27dcd8b4, 0x2f3cd2a2, 0xe04f070c, 0x82b8827c, 0xc0d22b61);
    Next(WORDS2, CHAIN1, 23, 0x82b8827c, 0xc0d22b61, 0x2f3cd2a2, 0xe04f070c, 0xdf35cb56);
    Data24To27();
    Next(WORDS2, CHAIN1, 24, 0xe04f070c, 0xdf35cb56, 0xc0d22b61, 0x2f3cd2a2, 0x242dd210);
    Next(WORDS2, CHAIN1, 25, 0x2f3cd2a2, 0x242dd210, 0xdf35cb56, 0xc0d22b61, 0x576ace33);
    Next(WORDS2, CHAIN1, 26, 0xc0d22b61, 0x576ace33, 0x242dd210, 0xdf35cb56, 0x5c295967);
    Next(WORDS2, CHAIN1, 27, 0xdf35cb56, 0x5c295967, 0x576ace33, 0x242dd210, 0x2291191a);
    Data28To31();
    Next(WORDS2, CHAIN1, 28, 0x242dd210, 0x2291191a, 0x5c295967, 0x576ace33, 0x24eba695);
    Next(WORDS2, CHAIN1, 29, 0x576ace33, 0x24eba695, 0x2291191a, 0x5c295967, 0x4bd0378b);
    Next(WORDS2, CHAIN1, 30, 0x5c295967, 0x4bd0378b, 0x24eba695, 0x2291191a, 0x10c42a2f);
    Next(WORDS2, CHAIN1, 31, 0x2291191a, 0x10c42a2f, 0x4bd0378b, 0x24eba695, 0x9c03e2e8);
  }

  lemma Block2Steps48()
    ensures Run(RfcStep, WORDS2, CHAIN1, 48) == [0x54c9eb3a, 0x79c0710a, 0x2ec86f72, 0xd4d9c6ac]
  {
    hide Run, Table, Index, Shift, WORDS2, CHAIN1;
    Words2Are();
    Block2Steps32();
    Data32To35();
    Next(WORDS2, CHAIN1, 32, 0x24eba695, 0x9c03e2e8, 0x10c42a2f, 0x4bd0378b, 0x5be1d526);
    Next(WORDS2, CHAIN1, 33, 0x4bd0378b, 0x5be1d526, 0x9c03e2e8, 0x10c42a2f, 0x9e414279);
    Next(WORDS2, CHAIN1, 34, 0x10c42a2f, 0x9e414279, 0x5be1d526, 0x9c03e2e8, 0x9f4a1a7e);
    Next(WORDS2, CHAIN1, 35, 0x9c03e2e8, 0x9f4a1a7e, 0x9e414279, 0x5be1d526, 0xa2448453);
    Data36To39();
    Next(WORDS2, CHAIN1, 36, 0x5be1d526, 0xa2448453, 0x9f4a1a7e, 0x9e414279, 0xe14e403d);
    Next(WORDS2, CHAIN1, 37, 0x9e414279, 0xe14e403d, 0xa2448453, 0x9f4a1a7e, 0xe8cfd670);
    Next(WORDS2, CHAIN1, 38, 0x9f4a1a7e, 0xe8cfd670, 0xe14e403d, 0xa2448453, 0x60cc183a);
    Next(WORDS2, CHAIN1, 39, 0xa2448453, 0x60cc183a, 0xe8cfd670, 0xe14e403d, 0xfe314121);
    Data40To43();
    Next(WORDS2, CHAIN1, 40, 0xe14e403d, 0xfe314121, 0x60cc183a, 0xe8cfd670, 0xfff62809);
    Next(WORDS2, CHAIN1, 41, 0xe8cfd670, 0xfff62809, 0xfe314121, 0x60cc183a, 0xe37209ac);
    Next(WORDS2, CHAIN1, 42, 0x60cc183a, 0xe37209ac, 0xfff62809, 0xfe314121, 0x8cb5221c);
    Next(WORDS2, CHAIN1, 43, 0xfe314121, 0x8cb5221c, 0xe37209ac, 0xfff62809, 0x7c7e974c);
    Data44To47();
    Next(WORDS2, CHAIN1, 44, 0xfff62809, 0x7c7e974c, 0x8cb5221c, 0xe37209ac, 0x54c9eb3a);
    Next(WORDS2, CHAIN1, 45, 0xe37209ac, 0x54c9eb3a, 0x7c7e974c, 0x8cb5221c, 0xd4d9c6ac);
    Next(WORDS2, CHAIN1, 46, 0x8cb5221c, 0xd4d9c6ac, 0x54c9eb3a, 0x7c7e974c, 0x2ec86f72);
    Next(WORDS2, CHAIN1, 47, 0x7c7e974c, 0x2ec86f72, 0xd4d9c6ac, 0x54c9eb3a, 0x79c0710a);
  }

  lemma Block2Steps64()
    ensures Run(RfcStep, WORDS2, CHAIN1, 64) == [0x14ae42c6, 0x16dd9203, 0x826afd76, 0xa52dae75]
  {
    hide Run, Table, Index, Shift, WORDS2, CHAIN1;
    Words2Are();
    Block2Steps48();
    Data48To51();
    Next(WORDS2, CHAIN1, 48, 0x54c9eb3a, 0x79c0710a, 0x2ec86f72, 0xd4d9c6ac, 0x02095af1);
    Next(WORDS2, CHAIN1, 49, 0xd4d9c6ac, 0x02095af1, 0x79c0710a, 0x2ec86f72, 0x13d245fd);
    Next(WORDS2, CHAIN1, 50, 0x2ec86f72, 0x13d245fd, 0x02095af1, 0x79c0710a, 0xa8dcfe26);
    Next(WORDS2, CHAIN1, 51, 0x79c0710a, 0xa8dcfe26, 0x13d245fd, 0x02095af1, 0x2ba98e3f);
    Data52To55();
    Next(WORDS2, CHAIN1, 52, 0x02095af1, 0x2ba98e3f, 0xa8dcfe26, 0x13d245fd, 0xe126c1aa);
    Next(WORDS2, CHAIN1, 53, 0x13d245fd, 0xe126c1aa, 0x2ba98e3f, 0xa8dcfe26, 0x96b00fa7);
    Next(WORDS2, CHAIN1, 54, 0xa8dcfe26, 0x96b00fa7, 0xe126c1aa, 0x2ba98e3f, 0x6f287ff5);
    Next(WORDS2, CHAIN1, 55, 0x2ba98e3f, 0x6f287ff5, 0x96b00fa7, 0xe126c1aa, 0xfb7bcee0);
    Data56To59();
    Next(WORDS2, CHAIN1, 56, 0xe126c1aa, 0xfb7bcee0, 0x6f287ff5, 0x96b00fa7, 0x452c1099);
    Next(WORDS2, CHAIN1, 57, 0x96b00fa7, 0x452c1099, 0xfb7bcee0, 0x6f287ff5, 0xca801ba6);
    Next(WORDS2, CHAIN1, 58, 0x6f287ff5, 0xca801ba6, 0x452c1099, 0xfb7bcee0, 0xc197ea8e);
    Next(WORDS2, CHAIN1, 59, 0xfb7bcee0, 0xc197ea8e, 0xca801ba6, 0x452c1099, 0x5ac74608);
    Data60To63();
    Next(WORDS2, CHAIN1, 60, 0x452c1099, 0x5ac74608, 0xc197ea8e, 0xca801ba6, 0x14ae42c6);
    Next(WORDS2, CHAIN1, 61, 0xca801ba6, 0x14ae42c6, 0x5ac74608, 0xc197ea8e, 0xa52dae75);
    Next(WORDS2, CHAIN1, 62, 0xc197ea8e, 0xa52dae75, 0x14ae42c6, 0x5ac74608, 0x826afd76);
    Next(WORDS2, CHAIN1, 63, 0x5ac74608, 0x826afd76, 0xa52dae75, 0x14ae42c6, 0x16dd9203);
  }

  lemma FirstBlock(block: Block)
    requires Decoded(block) == WORDS1
    ensures Compress(IV, block) == CHAIN1
  {
    hide Run, Decoded, WORDS1;
    Block1Steps64();
  }

  lemma SecondBlock(block: Block)
    requires Decoded(block) == WORDS2
    ensures Compress(CHAIN1, block) == [0x98ab74d1, 0xf5d977d2, 0x2c1c61a5, 0x9f9d419f]
  {
    hide Run, Decoded, WORDS2;
    Block2Steps64();
  }

  lemma SuiteDigest()
    ensures Md5.Md5(MESSAGE) ==
      [0xd1, 0x74, 0xab, 0x98, 0xd2, 0x77, 0xd9, 0xf5, 0xa5, 0x61, 0x1c, 0x2c, 0x9f, 0x41, 0x9d, 0x9f]
  {
    hide Compress, Padded, Decoded, Encoded, MESSAGE, WORDS1, WORDS2, CHAIN1;
    Blocks();
    var p := Padded(MESSAGE);
    FirstBlock(p[0..64]);
    SecondBlock(p[64..128]);
    TwoBlocks(p);
    OctetsAre();
  }

  lemma TwoBlocks(p: seq<bv8>)
    requires |p| == 128
    ensures Chained(Compress, IV, p, 2) == Compress(Compress(IV, p[0..64]), p[64..128])
  {
    hide Compress;
    assert Chained(Compress, IV, p, 1) == Compress(Chained(Compress, IV, p, 0), p[0..64]);
  }

  lemma OctetsAre()
    ensures Encoded([0x98ab74d1, 0xf5d977d2, 0x2c1c61a5, 0x9f9d419f]) ==
      [0xd1, 0x74, 0xab, 0x98, 0xd2, 0x77, 0xd9, 0xf5, 0xa5, 0x61, 0x1c, 0x2c, 0x9f, 0x41, 0x9d, 0x9f]
  {
  }
}
