/** Counter with CBC-MAC over any block cipher: what the loops of lib/aes128ccm.c build, and section 2 of RFC 3610. */
module CcmSpec {
  import opened Sequences
  import opened Octets

  type Block = s: seq<bv8> | |s| == 16 witness seq(16, _ => 0)
  type Cipher = Block -> Block

  function Octet(n: nat): bv8
    requires n < 256
  {
    n as bv8
  }

  /** The low-order octets of n, most significant first: htobe16 and htobe32 for widths 2 and 4. */
  function NetworkOrder(n: nat, width: nat): (r: seq<bv8>)
    ensures |r| == width
  {
    seq(width, k requires 0 <= k < width => Octet(BigEndian(n, width)[k]))
  }

  function Xor(a: seq<bv8>, b: seq<bv8>): (r: seq<bv8>)
    requires |a| <= |b|
    ensures |r| == |a|
  {
    seq(|a|, k requires 0 <= k < |a| => a[k] ^ b[k])
  }

  lemma XorTwice(a: seq<bv8>, b: seq<bv8>)
    requires |a| <= |b|
    ensures Xor(Xor(a, b), b) == a
  {
  }

  // ----- Blocks as the code builds them -----

  /** 15 - nlen - 1, taken modulo 8. */
  function LengthFlag(nonce: seq<bv8>): nat {
    (14 - |nonce|) % 8
  }

  /** ((mlen - 2) / 2) modulo 8, the subtraction wrapping as size_t does. */
  function MacFlag(mlen: nat): (r: nat)
    ensures r < 8
  {
    ((mlen - 2) % 0x1_0000_0000_0000_0000) / 2 % 8
  }

  /** A flags octet, then fifteen octets that end in a 32-bit number, of which the nonce overwrites the first. */
  function Assembled(flags: nat, nonce: seq<bv8>, number: nat): Block
    requires flags < 256 && |nonce| <= 15
  {
    [Octet(flags)] + nonce + (Repeat(0, 11) + NetworkOrder(number, 4))[|nonce|..]
  }

  function B0(nonce: seq<bv8>, alen: nat, plen: nat, mlen: nat): Block
    requires |nonce| <= 15
  {
    Assembled((if alen > 0 then 0x40 else 0) + 8 * MacFlag(mlen) + LengthFlag(nonce), nonce, plen)
  }

  function CounterBlock(nonce: seq<bv8>, i: nat): Block
    requires |nonce| <= 15
  {
    Assembled(LengthFlag(nonce), nonce, i)
  }

  function Fill(n: nat): nat {
    (16 - n % 16) % 16
  }

  lemma FillSteps(n: nat)
    ensures n >= 16 ==> Fill(n) == Fill(n - 16)
    ensures n < 16 ==> Fill(n) == if n == 0 then 0 else 16 - n
  {
  }

  /** Zero octets up to a multiple of 16. */
  function Padded(s: seq<bv8>): (r: seq<bv8>)
    ensures |r| % 16 == 0
  {
    s + Repeat(0, Fill(|s|))
  }

  function AadOctets(aad: seq<bv8>): (r: seq<bv8>)
    ensures |r| % 16 == 0
  {
    if aad == [] then [] else Padded(NetworkOrder(|aad|, 2) + aad)
  }

  /** The chaining value after the given octets. */
  function CbcMac(enc: Cipher, y: Block, s: seq<bv8>): Block
    requires |s| % 16 == 0
    decreases |s|
  {
    if |s| < 16 then y else CbcMac(enc, enc(Xor(s[..16], y)), s[16..])
  }

  function MacFrom(enc: Cipher, b0: Block, aad: seq<bv8>, p: seq<bv8>): Block {
    CbcMac(enc, CbcMac(enc, enc(b0), AadOctets(aad)), Padded(p))
  }

  function Tag(enc: Cipher, nonce: seq<bv8>, aad: seq<bv8>, p: seq<bv8>, mlen: nat): seq<bv8>
    requires |nonce| <= 15 && mlen <= 16
  {
    MacFrom(enc, B0(nonce, |aad|, |p|, mlen), aad, p)[..mlen]
  }

  function KeyBlock(enc: Cipher, nonce: seq<bv8>, i: nat): Block
    requires |nonce| <= 15
  {
    enc(CounterBlock(nonce, i))
  }

  /** The octets of p combined with the key stream from block j + 1 on. */
  function Crypted(enc: Cipher, nonce: seq<bv8>, p: seq<bv8>, j: nat): (r: seq<bv8>)
    requires |nonce| <= 15
    ensures |r| == |p|
  {
    if |p| <= 16 then Xor(p, KeyBlock(enc, nonce, j + 1))
    else Xor(p[..16], KeyBlock(enc, nonce, j + 1)) + Crypted(enc, nonce, p[16..], j + 1)
  }

  /** What travels: the tag combined with key block 0. */
  function SealedTag(enc: Cipher, nonce: seq<bv8>, aad: seq<bv8>, p: seq<bv8>, mlen: nat): seq<bv8>
    requires |nonce| <= 15 && mlen <= 16
  {
    Xor(Tag(enc, nonce, aad, p, mlen), KeyBlock(enc, nonce, 0))
  }

  /** Decrypting undoes encrypting, for any cipher, nonce and payload. */
  lemma {:induction false} CryptedTwice(enc: Cipher, nonce: seq<bv8>, p: seq<bv8>, j: nat)
    requires |nonce| <= 15
    ensures Crypted(enc, nonce, Crypted(enc, nonce, p, j), j) == p
  {
    hide Xor, KeyBlock;
    if |p| <= 16 {
      XorTwice(p, KeyBlock(enc, nonce, j + 1));
    } else {
      var c := Crypted(enc, nonce, p, j);
      assert c[..16] == Xor(p[..16], KeyBlock(enc, nonce, j + 1));
      assert c[16..] == Crypted(enc, nonce, p[16..], j + 1);
      XorTwice(p[..16], KeyBlock(enc, nonce, j + 1));
      CryptedTwice(enc, nonce, p[16..], j + 1);
    }
  }

  // ----- Section 2 of RFC 3610 -----

  /** Section 2.2: flags, nonce and the length field of 15 - |nonce| octets. */
  function RfcB0(nonce: seq<bv8>, alen: nat, plen: nat, mlen: nat): Block
    requires 7 <= |nonce| <= 13 && 4 <= mlen <= 16 && plen < Pow256(15 - |nonce|)
  {
    var adata, m, l := if alen > 0 then 1 else 0, (mlen - 2) / 2, 15 - |nonce| - 1;
    [Octet(64 * adata + 8 * m + l)] + nonce + NetworkOrder(plen, 15 - |nonce|)
  }

  /** Section 2.3. */
  function RfcCounterBlock(nonce: seq<bv8>, i: nat): Block
    requires 7 <= |nonce| <= 13
  {
    [Octet(15 - |nonce| - 1)] + nonce + NetworkOrder(i, 15 - |nonce|)
  }

  lemma {:induction false} BigEndianDrop(n: nat, width: nat, drop: nat)
    requires drop <= width
    ensures BigEndian(n, width)[drop..] == BigEndian(n, width - drop)
  {
    if drop < width {
      BigEndianDrop(n / 256, width - 1, drop);
    }
  }

  lemma {:induction false} BigEndianOfSmall(n: nat, width: nat, zeros: nat)
    requires n < Pow256(width)
    ensures BigEndian(n, zeros + width) == Repeat<u8>(0, zeros) + BigEndian(n, width)
  {
    if width == 0 {
      BigEndianOfZero(zeros);
    } else {
      BigEndianOfSmall(n / 256, width - 1, zeros);
    }
  }

  lemma {:induction false} BigEndianOfZero(width: nat)
    ensures BigEndian(0, width) == Repeat<u8>(0, width)
  {
    if width > 0 {
      BigEndianOfZero(width - 1);
    }
  }

  /** The nonce cuts the 32-bit number down to the field the RFC gives it. */
  lemma AssembledIsRfc(flags: nat, nonce: seq<bv8>, number: nat)
    requires flags < 256 && |nonce| <= 15 && number < 0x1_0000_0000
    ensures Assembled(flags, nonce, number) == [Octet(flags)] + nonce + NetworkOrder(number, 15 - |nonce|)
  {
    hide BigEndian;
    assert Pow256(4) == 0x1_0000_0000;
    BigEndianOfSmall(number, 4, 11);
    BigEndianDrop(number, 15, |nonce|);
    assert BigEndian(number, 15)[11..] == BigEndian(number, 4);
    assert Repeat(0, 11) + NetworkOrder(number, 4) == NetworkOrder(number, 15);
    assert NetworkOrder(number, 15)[|nonce|..] == NetworkOrder(number, 15 - |nonce|);
  }

  lemma MacFlagIsRfc(mlen: nat)
    requires 4 <= mlen <= 16
    ensures MacFlag(mlen) == (mlen - 2) / 2
  {
    assert (mlen - 2) % 0x1_0000_0000_0000_0000 == mlen - 2;
  }

  lemma B0IsRfc(nonce: seq<bv8>, alen: nat, plen: nat, mlen: nat)
    requires 7 <= |nonce| <= 13 && 4 <= mlen <= 16 && plen < 0x1_0000_0000 && plen < Pow256(15 - |nonce|)
    ensures B0(nonce, alen, plen, mlen) == RfcB0(nonce, alen, plen, mlen)
  {
    hide Octet, Assembled, MacFlag, NetworkOrder, Pow256;
    MacFlagIsRfc(mlen);
    AssembledIsRfc((if alen > 0 then 0x40 else 0) + 8 * MacFlag(mlen) + LengthFlag(nonce), nonce, plen);
  }

  lemma CounterBlockIsRfc(nonce: seq<bv8>, i: nat)
    requires 7 <= |nonce| <= 13 && i < 0x1_0000_0000
    ensures CounterBlock(nonce, i) == RfcCounterBlock(nonce, i)
  {
    hide Assembled;
    AssembledIsRfc(LengthFlag(nonce), nonce, i);
  }

  lemma {:induction false} CryptedInBlock(enc: Cipher, nonce: seq<bv8>, p: seq<bv8>, j: nat, q: nat, r: nat)
    requires |nonce| <= 15 && r < 16 && 16 * q + r < |p|
    ensures Crypted(enc, nonce, p, j)[16 * q + r] == p[16 * q + r] ^ KeyBlock(enc, nonce, j + q + 1)[r]
  {
    hide KeyBlock, Crypted;
    if q == 0 {
      CryptedFirst(enc, nonce, p, j, r);
    } else {
      var k := 16 * q + r;
      CryptedRest(enc, nonce, p, j, k);
      assert k - 16 == 16 * (q - 1) + r;
      CryptedInBlock(enc, nonce, p[16..], j + 1, q - 1, r);
    }
  }

  lemma CryptedFirst(enc: Cipher, nonce: seq<bv8>, p: seq<bv8>, j: nat, r: nat)
    requires |nonce| <= 15 && r < 16 && r < |p|
    ensures Crypted(enc, nonce, p, j)[r] == p[r] ^ KeyBlock(enc, nonce, j + 1)[r]
  {
    hide KeyBlock;
  }

  lemma CryptedRest(enc: Cipher, nonce: seq<bv8>, p: seq<bv8>, j: nat, k: nat)
    requires |nonce| <= 15 && 16 <= k < |p|
    ensures Crypted(enc, nonce, p, j)[k] == Crypted(enc, nonce, p[16..], j + 1)[k - 16] && p[k] == p[16..][k - 16]
  {
    hide KeyBlock, Xor;
  }

  /** Every octet of the result is the payload octet and its octet of the key stream. */
  lemma CryptedAt(enc: Cipher, nonce: seq<bv8>, p: seq<bv8>, j: nat, k: nat)
    requires |nonce| <= 15 && k < |p|
    ensures Crypted(enc, nonce, p, j)[k] == p[k] ^ KeyBlock(enc, nonce, j + k / 16 + 1)[k % 16]
  {
    hide KeyBlock, Crypted;
    CryptedInBlock(enc, nonce, p, j, k / 16, k % 16);
  }
}
