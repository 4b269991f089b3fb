/** The digest that section A.5 of RFC 1320 gives for the letters and digits, computed by the steps of the RFC. */
module Md4Vector {
  import opened Hashing
  import opened Md4Steps
  import opened SuiteMessage
  import Md4

  /** A step with the value that it is known to give. */
  lemma Next(x: Words, st: Chain, i: nat, a: bv32, b: bv32, c: bv32, d: bv32, value: bv32)
    requires Run(RfcStep, x, st, i) == [a, b, c, d] && RfcStep(x, i, [a, b, c, d]) == value
    ensures Run(RfcStep, x, st, i + 1) == [d, value, b, c]
  {
    hide RfcStep;
  }

  lemma Begin1()
    ensures Run(RfcStep, WORDS1, IV, 0) == [0x67452301, 0xefcdab89, 0x98badcfe, 0x10325476]
  {
  }

  lemma Block1Steps16()
    ensures Run(RfcStep, WORDS1, IV, 16) == [0x73def48f, 0x37410d7b, 0xe4ed3227, 0xf81413c3]
  {
    hide Run, Index, Shift, WORDS1, IV;
    Words1Are();
    Begin1();
    Data0To3();
    Next(WORDS1, IV, 0, 0x67452301, 0xefcdab89, 0x98badcfe, 0x10325476, 0x221a1202);
    Next(WORDS1, IV, 1, 0x10325476, 0x221a1202, 0xefcdab89, 0x98badcfe, 0x9134db89);
    Next(WORDS1, IV, 2, 0x98badcfe, 0x9134db89, 0x221a1202, 0xefcdab89, 0xfaca3a9e);
    Next(WORDS1, IV, 3, 0xefcdab89, 0xfaca3a9e, 0x9134db89, 0x221a1202, 0xa2f68168);
    Data4To7();
    Next(WORDS1, IV, 4, 0x221a1202, 0xa2f68168, 0xfaca3a9e, 0x9134db89, 0x517df6e1);
    Next(WORDS1, IV, 5, 0x9134db89, 0x517df6e1, 0xa2f68168, 0xfaca3a9e, 0x415d2e4a);
    Next(WORDS1, IV, 6, 0xfaca3a9e, 0x415d2e4a, 0x517df6e1, 0xa2f68168, 0x59e2ba09);
    Next(WORDS1, IV, 7, 0xa2f68168, 0x59e2ba09, 0x415d2e4a, 0x517df6e1, 0xa59a55ca);
    Data8To11();
    Next(WORDS1, IV, 8, 0x517df6e1, 0xa59a55ca, 0x59e2ba09, 0x415d2e4a, 0xed74ca87);
    Next(WORDS1, IV, 9, 0x415d2e4a, 0xed74ca87, 0xa59a55ca, 0x59e2ba09, 0xae859fb2);
    Next(WORDS1, IV, 10, 0x59e2ba09, 0xae859fb2, 0xed74ca87, 0xa59a55ca, 0x97aa13cb);
    Next(WORDS1, IV, 11, 0xa59a55ca, 0x97aa13cb, 0xae859fb2, 0xed74ca87, 0x2e185725);
    Data12To15();
    Next(WORDS1, IV, 12, 0xed74ca87, 0x2e185725, 0x97aa13cb, 0xae859fb2, 0x73def48f);
    Next(WORDS1, IV, 13, 0xae859fb2, 0x73def48f, 0x2e185725, 0x97aa13cb, 0xf81413c3);
    Next(WORDS1, IV, 14, 0x97aa13cb, 0xf81413c3, 0x73def48f, 0x2e185725, 0xe4ed3227);
    Next(WORDS1, IV, 15, 0x2e185725, 0xe4ed3227, 0xf81413c3, 0x73def48f, 0x37410d7b);
  }

  lemma Block1Steps32()
    ensures Run(RfcStep, WORDS1, IV, 32) == [0x1f074e76, 0x3a4c19f1, 0x1940d024, 0x0f13bdd4]
  {
    hide Run, Index, Shift, WORDS1, IV;
    Words1Are();
    Block1Steps16();
    Data16To19();
    Next(WORDS1, IV, 16, 0x73def48f, 0x37410d7b, 0xe4ed3227, 0xf81413c3, 0x374e1e60);
    Next(WORDS1, IV, 17, 0xf81413c3, 0x374e1e60, 0x37410d7b, 0xe4ed3227, 0xc6dfc21b);
    Next(WORDS1, IV, 18, 0xe4ed3227, 0xc6dfc21b, 0x374e1e60, 0x37410d7b, 0x504545c2);
    Next(WORDS1, IV, 19, 0x37410d7b, 0x504545c2, 0xc6dfc21b, 0x374e1e60, 0x88b9ac51);
    Data20To23();
    Next(WORDS1, IV, 20, 0x374e1e60, 0x88b9ac51, 0x504545c2, 0xc6dfc21b, 0xd7ad148c);
    Next(WORDS1, IV, 21, 0xc6dfc21b, 0xd7ad148c, 0x88b9ac51, 0x504545c2, 0x4cd2d929);
    Next(WORDS1, IV, 22, 0x504545c2, 0x4cd2d929, 0xd7ad148c, 0x88b9ac51, 0xdd8f9fcb);
    Next(WORDS1, IV, 23, 0x88b9ac51, 0xdd8f9fcb, 0x4cd2d929, 0xd7ad148c, 0xbe947e7f);
    Data24To27();
    Next(WORDS1, IV, 24, 0xd7ad148c, 0xbe947e7f, 0xdd8f9fcb, 0x4cd2d929, 0xd88dbeca);
    Next(WORDS1, IV, 25, 0x4cd2d929, 0xd88dbeca, 0xbe947e7f, 0xdd8f9fcb, 0xc88d7cdc);
    Next(WORDS1, IV, 26, 0xdd8f9fcb, 0xc88d7cdc, 0xd88dbeca, 0xbe947e7f, 0x22116306);
    Next(WORDS1, IV, 27, 0xbe947e7f, 0x22116306, 0xc88d7cdc, 0xd88dbeca, 0x5583431b);
    Data28To31();
    Next(WORDS1, IV, 28, 0xd88dbeca, 0x5583431b, 0x22116306, 0xc88d7cdc, 0x1f074e76);
    Next(WORDS1, IV, 29, 0xc88d7cdc, 0x1f074e76, 0x5583431b, 0x22116306, 0x0f13bdd4);
    Next(WORDS1, IV, 30, 0x22116306, 0x0f13bdd4, 0x1f074e76, 0x5583431b, 0x1940d024);
    Next(WORDS1, IV, 31, 0x5583431b, 0x1940d024, 0x0f13bdd4, 0x1f074e76, 0x3a4c19f1);
  }

  lemma Block1Steps48()
    ensures Run(RfcStep, WORDS1, IV, 48) == [0xcc9b5c59, 0x759a067b, 0xaac38972, 0x5ea23812]
  {
    hide Run, Index, Shift, WORDS1, IV;
    Words1Are();
    Block1Steps32();
    Data32To35();
    Next(WORDS1, IV, 32, 0x1f074e76, 0x3a4c19f1, 0x1940d024, 0x0f13bdd4, 0xf21f82cf);
    Next(WORDS1, IV, 33, 0x0f13bdd4, 0xf21f82cf, 0x3a4c19f1, 0x1940d024, 0xd4b9ed72);
    Next(WORDS1, IV, 34, 0x1940d024, 0xd4b9ed72, 0xf21f82cf, 0x3a4c19f1, 0xc42317ca);
    Next(WORDS1, IV, 35, 0x3a4c19f1, 0xc42317ca, 0xd4b9ed72, 0xf21f82cf, 0x7b400312);
    Data36To39();
    Next(WORDS1, IV, 36, 0xf21f82cf, 0x7b400312, 0xc42317ca, 0xd4b9ed72, 0xc8fd9318);
    Next(WORDS1, IV, 37, 0xd4b9ed72, 0xc8fd9318, 0x7b400312, 0xc42317ca, 0x47a2845b);
    Next(WORDS1, IV, 38, 0xc42317ca, 0x47a2845b, 0xc8fd9318, 0x7b400312, 0xeb90ac4b);
    Next(WORDS1, IV, 39, 0x7b400312, 0xeb90ac4b, 0x47a2845b, 0xc8fd9318, 0xef77c30f);
    Data40To43();
    Next(WORDS1, IV, 40, 0xc8fd9318, 0xef77c30f, 0xeb90ac4b, 0x47a2845b, 0x1b2580ee);
    Next(WORDS1, IV, 41, 0x47a2845b, 0x1b2580ee, 0xef77c30f, 0xeb90ac4b, 0x59982289);
    Next(WORDS1, IV, 42, 0xeb90ac4b, 0x59982289, 0x1b2580ee, 0xef77c30f, 0x627d4b04);
    Next(WORDS1, IV, 43, 0xef77c30f, 0x627d4b04, 0x59982289, 0x1b2580ee, 0x64a1d922);
    Data44To47();
    Next(WORDS1, IV, 44, 0x1b2580ee, 0x64a1d922, 0x627d4b04, 0x59982289, 0xcc9b5c59);
    Next(WORDS1, IV, 45, 0x59982289, 0xcc9b5c59, 0x64a1d922, 0x627d4b04, 0x5ea23812);
    Next(WORDS1, IV, 46, 0x627d4b04, 0x5ea23812, 0xcc9b5c59, 0x64a1d922, 0xaac38972);
    Next(WORDS1, IV, 47, 0x64a1d922, 0xaac38972, 0x5ea23812, 0xcc9b5c59, 0x759a067b);
  }

  const CHAIN1: Chain := [0x33e07f5a, 0x6567b204, 0x437e6670, 0x6ed48c88]

  lemma Begin2()
    ensures Run(RfcStep, WORDS2, CHAIN1, 0) == [0x33e07f5a, 0x6567b204, 0x437e6670, 0x6ed48c88]
  {
  }

  lemma Block2Steps16()
    ensures Run(RfcStep, WORDS2, CHAIN1, 16) == [0xb4be1210, 0x1f45209c, 0x5ded23c9, 0xda1e24ec]
  {
    hide Run, Index, Shift, WORDS2, CHAIN1;
    Words2Are();
    Begin2();
    Data0To3();
    Next(WORDS2, CHAIN1, 0, 0x33e07f5a, 0x6567b204, 0x437e6670, 0x6ed48c88, 0xfeb56f13);
    Next(WORDS2, CHAIN1, 1, 0x6ed48c88, 0xfeb56f13, 0x6567b204, 0x437e6670, 0x21d7746a);
    Next(WORDS2, CHAIN1, 2, 0x437e6670, 0x21d7746a, 0xfeb56f13, 0x6567b204, 0xa263b541);
    Next(WORDS2, CHAIN1, 3, 0x6567b204, 0xa263b541, 0x21d7746a, 0xfeb56f13, 0x82b711f9);
    Data4To7();
    Next(WORDS2, CHAIN1, 4, 0xfeb56f13, 0x82b711f9, 0xa263b541, 0x21d7746a, 0x10c722b5);
    Next(WORDS2, CHAIN1, 5, 0x21d7746a, 0x10c722b5, 0x82b711f9, 0xa263b541, 0x3f852de2);
    Next(WORDS2, CHAIN1, 6, 0xa263b541, 0x3f852de2, 0x10c722b5, 0x82b711f9, 0xd72fd198);
    Next(WORDS2, CHAIN1, 7, 0x82b711f9, 0xd72fd198, 0x3f852de2, 0x10c722b5, 0xacf4d3e1);
    Data8To11();
    Next(WORDS2, CHAIN1, 8, 0x10c722b5, 0xacf4d3e1, 0xd72fd198, 0x3f852de2, 0x3f6901bd);
    Next(WORDS2, CHAIN1, 9, 0x3f852de2, 0x3f6901bd, 0xacf4d3e1, 0xd72fd198, 0xf5ffc195);
    Next(WORDS2, CHAIN1, 10, 0xd72fd198, 0xf5ffc195, 0x3f6901bd, 0xacf4d3e1, 0xc72c68a4);
    Next(WORDS2, CHAIN1, 11, 0xacf4d3e1, 0xc72c68a4, 0xf5ffc195, 0x3f6901bd, 0xabf55310);
    Data12To15();
    Next(WORDS2, CHAIN1, 12, 0x3f6901bd, 0xabf55310, 0xc72c68a4, 0xf5ffc195, 0xb4be1210);
    Next(WORDS2, CHAIN1, 13, 0xf5ffc195, 0xb4be1210, 0xabf55310, 0xc72c68a4, 0xda1e24ec);
    Next(WORDS2, CHAIN1, 14, 0xc72c68a4, 0xda1e24ec, 0xb4be1210, 0xabf55310, 0x5ded23c9);
    Next(WORDS2, CHAIN1, 15, 0xabf55310, 0x5ded23c9, 0xda1e24ec, 0xb4be1210, 0x1f45209c);
  }

  lemma Block2Steps32()
    ensures Run(RfcStep, WORDS2, CHAIN1, 32) == [0x88f40164, 0xb01ce610, 0xf1aae5d9, 0x21d35e3f]
  {
    hide Run, Index, Shift, WORDS2, CHAIN1;
    Words2Are();
    Block2Steps16();
    Data16To19();
    Next(WORDS2, CHAIN1, 16, 0xb4be1210, 0x1f45209c, 0x5ded23c9, 0xda1e24ec, 0x746d63ab);
    Next(WORDS2, CHAIN1, 17, 0xda1e24ec, 0x746d63ab, 0x1f45209c, 0x5ded23c9, 0x41b841d2);
    Next(WORDS2, CHAIN1, 18, 0x5ded23c9, 0x41b841d2, 0x746d63ab, 0x1f45209c, 0xb9fdf81b);
    Next(WORDS2, CHAIN1, 19, 0x1f45209c, 0xb9fdf81b, 0x41b841d2, 0x746d63ab, 0x9f7a1d78);
    Data20To23();
    Next(WORDS2, CHAIN1, 20, 0x746d63ab, 0x9f7a1d78, 0xb9fdf81b, 0x41b841d2, 0x4741b4f3);
    Next(WORDS2, CHAIN1, 21, 0x41b841d2, 0x4741b4f3, 0x9f7a1d78, 0xb9fdf81b, 0x768efcc7);
    Next(WORDS2, CHAIN1, 22, 0xb9fdf81b, 0x768efcc7, 0x4741b4f3, 0x9f7a1d78, 0x965d4ed7);
    Next(WORDS2, CHAIN1, 23, 0x9f7a1d78, 0x965d4ed7, 0x768efcc7, 0x4741b4f3, 0x527d0a09);
    Data24To27();
    Next(WORDS2, CHAIN1, 24, 0x4741b4f3, 0x527d0a09, 0x965d4ed7, 0x768efcc7, 0xc10bea9f);
    Next(WORDS2, CHAIN1, 25, 0x768efcc7, 0xc10bea9f, 0x527d0a09, 0x965d4ed7, 0x6dd81ff4);
    Next(WORDS2, CHAIN1, 26, 0x965d4ed7, 0x6dd81ff4, 0xc10bea9f, 0x527d0a09, 0x71a61a64);
    Next(WORDS2, CHAIN1, 27, 0x527d0a09, 0x71a61a64, 0x6dd81ff4, 0xc10bea9f, 0x3410c1d1);
    Data28To31();
    Next(WORDS2, CHAIN1, 28, 0xc10bea9f, 0x3410c1d1, 0x71a61a64, 0x6dd81ff4, 0x88f40164);
    Next(WORDS2, CHAIN1, 29, 0x6dd81ff4, 0x88f40164, 0x3410c1d1, 0x71a61a64, 0x21d35e3f);
    Next(WORDS2, CHAIN1, 30, 0x71a61a64, 0x21d35e3f, 0x88f40164, 0x3410c1d1, 0xf1aae5d9);
    Next(WORDS2, CHAIN1, 31, 0x3410c1d1, 0xf1aae5d9, 0x21d35e3f, 0x88f40164, 0xb01ce610);
  }

  lemma Block2Steps48()
    ensures Run(RfcStep, WORDS2, CHAIN1, 48) == [0x4ea4bfaa, 0xd0738fee, 0x9da97fac, 0x761c5acb]
  {
    hide Run, Index, Shift, WORDS2, CHAIN1;
    Words2Are();
    Block2Steps32();
    Data32To35();
    Next(WORDS2, CHAIN1, 32, 0x88f40164, 0xb01ce610, 0xf1aae5d9, 0x21d35e3f, 0xc19a57da);
    Next(WORDS2, CHAIN1, 33, 0x21d35e3f, 0xc19a57da, 0xb01ce610, 0xf1aae5d9, 0xb33be621);
    Next(WORDS2, CHAIN1, 34, 0xf1aae5d9, 0xb33be621, 0xc19a57da, 0xb01ce610, 0x114b291a);
    Next(WORDS2, CHAIN1, 35, 0xb01ce610, 0x114b291a, 0xb33be621, 0xc19a57da, 0xb5494170);
    Data36To39();
    Next(WORDS2, CHAIN1, 36, 0xc19a57da, 0xb5494170, 0x114b291a, 0xb33be621, 0x3d6e8e32);
    Next(WORDS2, CHAIN1, 37, 0xb33be621, 0x3d6e8e32, 0xb5494170, 0x114b291a, 0x05703577);
    Next(WORDS2, CHAIN1, 38, 0x114b291a, 0x05703577, 0x3d6e8e32, 0xb5494170, 0xe877806b);
    Next(WORDS2, CHAIN1, 39, 0xb5494170, 0xe877806b, 0x05703577, 0x3d6e8e32, 0x3517fa46);
    Data40To43();
    Next(WORDS2, CHAIN1, 40, 0x3d6e8e32, 0x3517fa46, 0xe877806b, 0x05703577, 0x22c6496c);
    Next(WORDS2, CHAIN1, 41, 0x05703577, 0x22c6496c, 0x3517fa46, 0xe877806b, 0xe0a8b2e7);
    Next(WORDS2, CHAIN1, 42, 0xe877806b, 0xe0a8b2e7, 0x22c6496c, 0x3517fa46, 0x536eca76);
    Next(WORDS2, CHAIN1, 43, 0x3517fa46, 0x536eca76, 0xe0a8b2e7, 0x22c6496c, 0x0bf21a79);
    Data44To47();
    Next(WORDS2, CHAIN1, 44, 0x22c6496c, 0x0bf21a79, 0x536eca76, 0xe0a8b2e7, 0x4ea4bfaa);
    Next(WORDS2, CHAIN1, 45, 0xe0a8b2e7, 0x4ea4bfaa, 0x0bf21a79, 0x536eca76, 0x761c5acb);
    Next(WORDS2, CHAIN1, 46, 0x536eca76, 0x761c5acb, 0x4ea4bfaa, 0x0bf21a79, 0x9da97fac);
    Next(WORDS2, CHAIN1, 47, 0x0bf21a79, 0x9da97fac, 0x761c5acb, 0x4ea4bfaa, 0xd0738fee);
  }

  lemma FirstBlock(block: Block)
    requires Decoded(block) == WORDS1
    ensures Compress(IV, block) == CHAIN1
  {
    hide Run, Decoded, WORDS1;
    Block1Steps48();
  }

  lemma SecondBlock(block: Block)
    requires Decoded(block) == WORDS2
    ensures Compress(CHAIN1, block) == [0x82853f04, 0x35db41f2, 0xe127e61c, 0xe4f0e753]
  {
    hide Run, Decoded, WORDS2;
    Block2Steps48();
  }

  lemma SuiteDigest()
    ensures Md4.Md4(MESSAGE) ==
      [0x04, 0x3f, 0x85, 0x82, 0xf2, 0x41, 0xdb, 0x35, 0x1c, 0xe6, 0x27, 0xe1, 0x53, 0xe7, 0xf0, 0xe4]
  {
    hide Compress, Padded, Decoded, Encoded, MESSAGE, WORDS1, WORDS2, CHAIN1;
    Blocks();
    var p := Padded(MESSAGE);
    FirstBlock(p[0..64]);
    SecondBlock(p[64..128]);
    TwoBlocks(p);
    OctetsAre();
  }

  lemma TwoBlocks(p: seq<bv8>)
    requires |p| == 128
    ensures Chained(Compress, IV, p, 2) == Compress(Compress(IV, p[0..64]), p[64..128])
  {
    hide Compress;
    assert Chained(Compress, IV, p, 1) == Compress(Chained(Compress, IV, p, 0), p[0..64]);
  }

  lemma OctetsAre()
    ensures Encoded([0x82853f04, 0x35db41f2, 0xe127e61c, 0xe4f0e753]) ==
      [0x04, 0x3f, 0x85, 0x82, 0xf2, 0x41, 0xdb, 0x35, 0x1c, 0xe6, 0x27, 0xe1, 0x53, 0xe7, 0xf0, 0xe4]
  {
  }
}
