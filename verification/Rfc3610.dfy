/** Section 2 of RFC 3610, octet by octet and block by block: what authenticates a message, without the functions that
    the code is proved against. */
module Rfc3610 {
  import opened Octets
  import opened CcmSpec

  /** The number in so many octets, most significant first: octet k of it. */
  function NumberOctet(n: nat, width: nat, k: nat): bv8
    requires k < width
  {
    Octet(n / Pow256(width - 1 - k) % 256)
  }

  /** Section 2.2: octet k of B_0, for a nonce of 15 - L octets and a field of M octets. */
  function FirstOctet(nonce: seq<bv8>, alen: nat, plen: nat, mlen: nat, k: nat): bv8
    requires 7 <= |nonce| <= 13 && 4 <= mlen <= 16 && k < 16
  {
    if k == 0 then Octet(64 * (if alen > 0 then 1 else 0) + 8 * ((mlen - 2) / 2) + (15 - |nonce| - 1))
    else if k <= |nonce| then nonce[k - 1]
    else NumberOctet(plen, 15 - |nonce|, k - 1 - |nonce|)
  }

  /** Section 2.3: octet k of A_i. */
  function CounterOctet(nonce: seq<bv8>, i: nat, k: nat): bv8
    requires 7 <= |nonce| <= 13 && k < 16
  {
    if k == 0 then Octet(15 - |nonce| - 1)
    else if k <= |nonce| then nonce[k - 1]
    else NumberOctet(i, 15 - |nonce|, k - 1 - |nonce|)
  }

  /** The associated data behind its length in two octets, and zeros behind that. */
  function AadOctet(aad: seq<bv8>, k: nat): bv8
    requires |aad| < 0xFF00
  {
    if k == 0 then Octet(|aad| / 256)
    else if k == 1 then Octet(|aad| % 256)
    else if k < 2 + |aad| then aad[k - 2]
    else 0
  }

  function PayloadOctet(p: seq<bv8>, k: nat): bv8 {
    if k < |p| then p[k] else 0
  }

  function AadBlocks(aad: seq<bv8>): nat {
    if aad == [] then 0 else (|aad| + 2 + 15) / 16
  }

  function PayloadBlocks(p: seq<bv8>): nat {
    (|p| + 15) / 16
  }

  function FirstBlock(nonce: seq<bv8>, alen: nat, plen: nat, mlen: nat): Block
    requires 7 <= |nonce| <= 13 && 4 <= mlen <= 16
  {
    seq(16, k requires 0 <= k < 16 => FirstOctet(nonce, alen, plen, mlen, k))
  }

  function AadBlock(aad: seq<bv8>, q: nat): Block
    requires |aad| < 0xFF00
  {
    seq(16, r requires 0 <= r < 16 => AadOctet(aad, 16 * q + r))
  }

  function PayloadBlock(p: seq<bv8>, q: nat): Block {
    seq(16, r requires 0 <= r < 16 => PayloadOctet(p, 16 * q + r))
  }

  function CounterBlockOf(nonce: seq<bv8>, i: nat): Block
    requires 7 <= |nonce| <= 13
  {
    seq(16, k requires 0 <= k < 16 => CounterOctet(nonce, i, k))
  }

  /** B_0, then the blocks of the associated data, then those of the payload. */
  function MacBlock(nonce: seq<bv8>, aad: seq<bv8>, p: seq<bv8>, mlen: nat, i: nat): Block
    requires 7 <= |nonce| <= 13 && 4 <= mlen <= 16 && |aad| < 0xFF00
  {
    if i == 0 then FirstBlock(nonce, |aad|, |p|, mlen)
    else if i <= AadBlocks(aad) then AadBlock(aad, i - 1)
    else PayloadBlock(p, i - 1 - AadBlocks(aad))
  }

  function Both(x: Block, y: Block): Block {
    seq(16, r requires 0 <= r < 16 => x[r] ^ y[r])
  }

  /** X_1 = E(B_0), and X_{i+1} = E(X_i XOR B_i). */
  function X(enc: Cipher, nonce: seq<bv8>, aad: seq<bv8>, p: seq<bv8>, mlen: nat, i: nat): Block
    requires 7 <= |nonce| <= 13 && 4 <= mlen <= 16 && |aad| < 0xFF00 && i > 0
  {
    if i == 1 then enc(MacBlock(nonce, aad, p, mlen, 0))
    else enc(Both(X(enc, nonce, aad, p, mlen, i - 1), MacBlock(nonce, aad, p, mlen, i - 1)))
  }

  /** U: the first M octets of the last X, combined with those of S_0. */
  function Value(enc: Cipher, nonce: seq<bv8>, aad: seq<bv8>, p: seq<bv8>, mlen: nat): seq<bv8>
    requires 7 <= |nonce| <= 13 && 4 <= mlen <= 16 && |aad| < 0xFF00
  {
    var t := X(enc, nonce, aad, p, mlen, AadBlocks(aad) + PayloadBlocks(p) + 1);
    var s := enc(CounterBlockOf(nonce, 0));
    seq(mlen, k requires 0 <= k < mlen => t[k] ^ s[k])
  }

  /** Octet k of the encrypted message: S_1, S_2, ... one after another. */
  function MessageOctet(enc: Cipher, nonce: seq<bv8>, p: seq<bv8>, k: nat): bv8
    requires 7 <= |nonce| <= 13 && k < |p|
  {
    p[k] ^ enc(CounterBlockOf(nonce, k / 16 + 1))[k % 16]
  }

  // ----- The code's blocks are these -----

  lemma NumberOctets(n: nat, width: nat)
    ensures forall k :: 0 <= k < width ==> NetworkOrder(n, width)[k] == NumberOctet(n, width, k)
  {
    hide Octet, BigEndian, Pow256;
    forall k | 0 <= k < width
      ensures NetworkOrder(n, width)[k] == NumberOctet(n, width, k)
    {
      BigEndianAt(n, width, k);
    }
  }

  lemma FirstBlockIs(nonce: seq<bv8>, alen: nat, plen: nat, mlen: nat)
    requires 7 <= |nonce| <= 13 && 4 <= mlen <= 16 && plen < 0x1_0000_0000 && plen < Pow256(15 - |nonce|)
    ensures B0(nonce, alen, plen, mlen) == FirstBlock(nonce, alen, plen, mlen)
  {
    hide Octet, NetworkOrder, B0, Pow256, NumberOctet;
    B0IsRfc(nonce, alen, plen, mlen);
    NumberOctets(plen, 15 - |nonce|);
  }

  lemma CounterBlockIs(nonce: seq<bv8>, i: nat)
    requires 7 <= |nonce| <= 13 && i < 0x1_0000_0000
    ensures CounterBlock(nonce, i) == CounterBlockOf(nonce, i)
  {
    hide Octet, NetworkOrder, CounterBlock, NumberOctet;
    CounterBlockIsRfc(nonce, i);
    NumberOctets(i, 15 - |nonce|);
  }

  function Cut(s: seq<bv8>, q: nat): Block
    requires 16 * q + 16 <= |s|
  {
    s[16 * q..16 * q + 16]
  }

  lemma CutIs(s: seq<bv8>, q: nat, b: Block)
    requires 16 * q + 16 <= |s| && forall r :: 0 <= r < 16 ==> b[r] == s[16 * q + r]
    ensures Cut(s, q) == b
  {
  }

  lemma PaddedSize(n: nat)
    ensures n + Fill(n) == 16 * ((n + 15) / 16)
  {
  }

  lemma AadSize(aad: seq<bv8>)
    ensures |AadOctets(aad)| == 16 * AadBlocks(aad)
  {
    PaddedSize(2 + |aad|);
  }

  lemma PayloadSize(p: seq<bv8>)
    ensures |Padded(p)| == 16 * PayloadBlocks(p)
  {
    PaddedSize(|p|);
  }

  lemma AadOctetIs(aad: seq<bv8>, k: nat)
    requires |aad| < 0xFF00 && k < |AadOctets(aad)|
    ensures AadOctets(aad)[k] == AadOctet(aad, k)
  {
    hide BigEndian, Octet;
    NumberOctets(|aad|, 2);
    assert Pow256(0) == 1 && Pow256(1) == 256;
    assert |aad| / 256 % 256 == |aad| / 256;
    assert NetworkOrder(|aad|, 2)[0] == NumberOctet(|aad|, 2, 0);
    assert NetworkOrder(|aad|, 2)[1] == NumberOctet(|aad|, 2, 1);
  }

  lemma AadCut(aad: seq<bv8>, q: nat)
    requires |aad| < 0xFF00 && 16 * q + 16 <= |AadOctets(aad)|
    ensures Cut(AadOctets(aad), q) == AadBlock(aad, q)
  {
    hide AadOctets, AadOctet;
    forall r | 0 <= r < 16
      ensures AadBlock(aad, q)[r] == AadOctets(aad)[16 * q + r]
    {
      AadOctetIs(aad, 16 * q + r);
    }
    CutIs(AadOctets(aad), q, AadBlock(aad, q));
  }

  lemma PayloadOctetIs(p: seq<bv8>, k: nat)
    requires k < |Padded(p)|
    ensures Padded(p)[k] == PayloadOctet(p, k)
  {
  }

  lemma PayloadCut(p: seq<bv8>, q: nat)
    requires 16 * q + 16 <= |Padded(p)|
    ensures Cut(Padded(p), q) == PayloadBlock(p, q)
  {
    forall r | 0 <= r < 16
      ensures PayloadBlock(p, q)[r] == Padded(p)[16 * q + r]
    {
      PayloadOctetIs(p, 16 * q + r);
    }
    CutIs(Padded(p), q, PayloadBlock(p, q));
  }

  // ----- The chain -----

  /** Octets that are the blocks from i on take the chain as many blocks further. */
  lemma {:induction false} ChainGoesOn(enc: Cipher, nonce: seq<bv8>, aad: seq<bv8>, p: seq<bv8>, mlen: nat, i: nat,
                                       s: seq<bv8>, blocks: nat)
    requires 7 <= |nonce| <= 13 && 4 <= mlen <= 16 && |aad| < 0xFF00 && i > 0 && |s| == 16 * blocks
    requires forall q :: 0 <= q < blocks ==> Cut(s, q) == MacBlock(nonce, aad, p, mlen, i + q)
    ensures CbcMac(enc, X(enc, nonce, aad, p, mlen, i), s) == X(enc, nonce, aad, p, mlen, i + blocks)
    decreases blocks
  {
    hide MacBlock;
    if blocks > 0 {
      var x, b := X(enc, nonce, aad, p, mlen, i), MacBlock(nonce, aad, p, mlen, i);
      assert s[..16] == Cut(s, 0) == MacBlock(nonce, aad, p, mlen, i + 0) == b;
      Commutes(s[..16], x, b);
      forall q | 0 <= q < blocks - 1
        ensures Cut(s[16..], q) == MacBlock(nonce, aad, p, mlen, i + 1 + q)
      {
        assert Cut(s[16..], q) == Cut(s, q + 1);
        assert i + 1 + q == i + (q + 1);
      }
      ChainGoesOn(enc, nonce, aad, p, mlen, i + 1, s[16..], blocks - 1);
    }
  }

  lemma Commutes(s: Block, x: Block, b: Block)
    requires s == b
    ensures Xor(s, x) == Both(x, b)
  {
  }

  /** What travels is the value U of the RFC. */
  lemma SealedTagIsRfc(enc: Cipher, nonce: seq<bv8>, aad: seq<bv8>, p: seq<bv8>, mlen: nat)
    requires 7 <= |nonce| <= 13 && 4 <= mlen <= 16
    requires |p| < 0x1_0000_0000 && |p| < Pow256(15 - |nonce|) && |aad| < 0xFF00
    ensures SealedTag(enc, nonce, aad, p, mlen) == Value(enc, nonce, aad, p, mlen)
  {
    hide B0, FirstBlock, CounterBlock, CounterBlockOf, X, MacFrom, Pow256, AadBlocks, PayloadBlocks;
    FirstBlockIs(nonce, |aad|, |p|, mlen);
    CounterBlockIs(nonce, 0);
    AllChained(enc, nonce, aad, p, mlen);
  }

  lemma AllChained(enc: Cipher, nonce: seq<bv8>, aad: seq<bv8>, p: seq<bv8>, mlen: nat)
    requires 7 <= |nonce| <= 13 && 4 <= mlen <= 16 && |aad| < 0xFF00
    ensures MacFrom(enc, FirstBlock(nonce, |aad|, |p|, mlen), aad, p)
         == X(enc, nonce, aad, p, mlen, AadBlocks(aad) + PayloadBlocks(p) + 1)
  {
    hide AadBlock, PayloadBlock, FirstBlock, CbcMac, AadOctets, Padded, AadBlocks, PayloadBlocks, X, Cut;
    var n, m := AadBlocks(aad), PayloadBlocks(p);
    AadSize(aad);
    PayloadSize(p);
    forall q | 0 <= q < n
      ensures Cut(AadOctets(aad), q) == MacBlock(nonce, aad, p, mlen, 1 + q)
    {
      AadCut(aad, q);
    }
    ChainGoesOn(enc, nonce, aad, p, mlen, 1, AadOctets(aad), n);
    forall q | 0 <= q < m
      ensures Cut(Padded(p), q) == MacBlock(nonce, aad, p, mlen, 1 + n + q)
    {
      PayloadCut(p, q);
    }
    ChainGoesOn(enc, nonce, aad, p, mlen, 1 + n, Padded(p), m);
    XStarts(enc, nonce, aad, p, mlen);
  }

  lemma XStarts(enc: Cipher, nonce: seq<bv8>, aad: seq<bv8>, p: seq<bv8>, mlen: nat)
    requires 7 <= |nonce| <= 13 && 4 <= mlen <= 16 && |aad| < 0xFF00
    ensures X(enc, nonce, aad, p, mlen, 1) == enc(FirstBlock(nonce, |aad|, |p|, mlen))
  {
    hide FirstBlock;
  }

  /** The payload is encrypted as section 2.3 says. */
  lemma CryptedIsRfc(enc: Cipher, nonce: seq<bv8>, p: seq<bv8>, k: nat)
    requires 7 <= |nonce| <= 13 && k < |p| && |p| < 0x1_0000_0000
    ensures Crypted(enc, nonce, p, 0)[k] == MessageOctet(enc, nonce, p, k)
  {
    hide CounterBlock, CounterBlockOf, Crypted, KeyBlock;
    CryptedAt(enc, nonce, p, 0, k);
    KeyBlockIs(enc, nonce, k / 16 + 1);
  }

  lemma KeyBlockIs(enc: Cipher, nonce: seq<bv8>, i: nat)
    requires 7 <= |nonce| <= 13 && i < 0x1_0000_0000
    ensures KeyBlock(enc, nonce, i) == enc(CounterBlockOf(nonce, i))
  {
    hide CounterBlock, CounterBlockOf;
    CounterBlockIs(nonce, i);
  }

  /** The first blocks of packet vector 1, section 8. */
  const NONCE1: seq<bv8> := [0x00, 0x00, 0x00, 0x03, 0x02, 0x01, 0x00, 0xa0, 0xa1, 0xa2, 0xa3, 0xa4, 0xa5]

  lemma PacketVector1()
    ensures B0(NONCE1, 8, 23, 8) == [0x59] + NONCE1 + [0x00, 0x17]
    ensures CounterBlock(NONCE1, 1) == [0x01] + NONCE1 + [0x00, 0x01]
  {
    hide B0, CounterBlock;
    B0IsRfc(NONCE1, 8, 23, 8) by {
      assert Pow256(2) == 256 * Pow256(1) == 256 * 256 * Pow256(0);
    }
    CounterBlockIsRfc(NONCE1, 1);
    TwoOctets(23);
    TwoOctets(1);
  }

  lemma TwoOctets(n: nat)
    requires n < 256
    ensures NetworkOrder(n, 2) == [0, Octet(n)]
  {
    assert BigEndian(n, 2) == BigEndian(n / 256, 1) + [n];
    assert BigEndian(0, 1) == BigEndian(0, 0) + [0];
  }
}
