/** AES-128-CCM in place, lib/aes128ccm.c: every routine is proved to compute what CcmSpec says for the AES cipher. */
module Ccm {
  import opened Sequences
  import opened CcmSpec
  import Aes

  function Enc(key: Block): Cipher {
    (b: Block) => Aes.Encrypted(key, b)
  }

  // ----- One block at a time -----

  /** The chaining value goes on by one block, the last one filled with zeros. */
  lemma CbcStep(enc: Cipher, y: Block, rest: seq<bv8>, l: nat)
    requires rest != [] && l == if |rest| > 16 then 16 else |rest|
    ensures CbcMac(enc, y, Padded(rest)) == CbcMac(enc, enc(Xor(rest[..l] + Repeat(0, 16 - l), y)), Padded(rest[l..]))
  {
    hide Xor, Padded, Repeat;
    PaddedStep(rest, l);
  }

  lemma PaddedStep(rest: seq<bv8>, l: nat)
    requires rest != [] && l == if |rest| > 16 then 16 else |rest|
    ensures |Padded(rest)| >= 16
    ensures Padded(rest)[..16] == rest[..l] + Repeat(0, 16 - l)
    ensures Padded(rest)[16..] == Padded(rest[l..])
  {
    hide Fill;
    FillSteps(|rest|);
    FillSteps(0);
  }

  lemma CbcFirstAad(enc: Cipher, y: Block, aad: seq<bv8>, l: nat)
    requires aad != [] && l == if |aad| > 14 then 14 else |aad|
    ensures CbcMac(enc, y, AadOctets(aad))
         == CbcMac(enc, enc(Xor(NetworkOrder(|aad|, 2) + aad[..l] + Repeat(0, 14 - l), y)), Padded(aad[l..]))
  {
    hide Xor, NetworkOrder, CbcMac, Padded, Repeat;
    var length := NetworkOrder(|aad|, 2);
    CbcStep(enc, y, length + aad, l + 2);
    assert (length + aad)[..l + 2] == length + aad[..l];
    assert (length + aad)[l + 2..] == aad[l..];
  }

  method Clear(b: array<bv8>)
    requires b.Length == 16
    modifies b
    ensures b[..] == Repeat(0, 16)
  {
    for i := 0 to 16
      invariant forall k :: 0 <= k < i ==> b[k] == 0
    {
      b[i] := 0;
    }
  }

  method Copy(b: array<bv8>, at: nat, source: seq<bv8>)
    requires at + |source| <= b.Length
    modifies b
    ensures b[..] == old(b[..at]) + source + old(b[at + |source|..])
  {
    for i := 0 to |source|
      invariant forall k :: 0 <= k < b.Length ==> b[k] == if at <= k < at + i then source[k - at] else old(b[k])
    {
      b[at + i] := source[i];
    }
  }

  method Bxory(b: array<bv8>, from: nat, y: array<bv8>, num: nat)
    requires from + num <= b.Length && num <= y.Length && b != y
    modifies b
    ensures b[..] == old(b[..from]) + Xor(old(b[from..from + num]), y[..]) + old(b[from + num..])
  {
    for i := 0 to num
      invariant forall k :: 0 <= k < b.Length ==>
        b[k] == if from <= k < from + i then Xor(old(b[from..from + num]), y[..])[k - from] else old(b[k])
    {
      b[from + i] := b[from + i] ^ y[i];
    }
  }

  /** The common prefix of B_0 and of the counter blocks. */
  method Assemble(flags: nat, nonce: array<bv8>, number: nat, buf: array<bv8>)
    requires flags < 256 && nonce.Length <= 15 && buf.Length == 16 && buf != nonce
    modifies buf
    ensures buf[..] == Assembled(flags, nonce[..], number)
  {
    hide NetworkOrder, Octet;
    Clear(buf);
    buf[0] := Octet(flags);
    Copy(buf, 12, NetworkOrder(number, 4));
    Copy(buf, 1, nonce[..]);
  }

  method GenerateB0(nonce: array<bv8>, alen: nat, plen: nat, mlen: nat, buf: array<bv8>)
    requires nonce.Length <= 15 && buf.Length == 16 && buf != nonce
    modifies buf
    ensures buf[..] == B0(nonce[..], alen, plen, mlen)
  {
    hide Assembled;
    Assemble((if alen > 0 then 0x40 else 0) + 8 * MacFlag(mlen) + LengthFlag(nonce[..]), nonce, plen, buf);
  }

  method GenerateS(key: array<bv8>, nonce: array<bv8>, i: nat, s: array<bv8>)
    requires key.Length == 16 && nonce.Length <= 15 && s.Length == 16 && s != nonce && s != key
    modifies s
    ensures s[..] == KeyBlock(Enc(key[..]), nonce[..], i)
  {
    hide Assembled, Aes.Encrypted;
    Assemble(LengthFlag(nonce[..]), nonce, i, s);
    Aes.Encrypt(s, key, s);
  }

  /** A block of head and zeros goes into the chaining value y. */
  method Absorb(key: array<bv8>, head: seq<bv8>, b: array<bv8>, y: array<bv8>)
    requires key.Length == 16 && |head| <= 16 && b.Length == 16 && y.Length == 16 && b != y && b != key && y != key
    modifies b, y
    ensures y[..] == Enc(key[..])(Xor(head + Repeat(0, 16 - |head|), old(y[..])))
  {
    hide Xor, Aes.Encrypted;
    Clear(b);
    Copy(b, 0, head);
    assert b[0..16] == b[..] == head + Repeat(0, 16 - |head|);
    Bxory(b, 0, y, 16);
    assert b[..] == Xor(head + Repeat(0, 16 - |head|), y[..]);
    Aes.Encrypt(b, key, y);
  }

  method AbsorbAad(key: array<bv8>, aad: array<bv8>, b: array<bv8>, y: array<bv8>)
    requires key.Length == 16 && b.Length == 16 && y.Length == 16 && b != y && b != key && y != key && b != aad && y != aad
    modifies b, y
    ensures y[..] == CbcMac(Enc(key[..]), old(y[..]), AadOctets(aad[..]))
  {
    hide Xor, Padded, NetworkOrder, Enc, CbcMac, AadOctets, Repeat;
    ghost var enc := Enc(key[..]);
    var alen: nat := aad.Length;
    assert alen == 0 ==> aad[..] == [];
    CbcOfNothing(enc, y[..]);
    if alen > 0 {
      var l := if alen > 14 then 14 else alen;
      CbcFirstAad(enc, y[..], aad[..], l);
      Absorb(key, NetworkOrder(alen, 2) + aad[..l], b, y);
      var at: nat := l;
      alen := alen - l;
      while alen > 0
        invariant at + alen == aad.Length
        invariant CbcMac(enc, y[..], Padded(aad[at..])) == CbcMac(enc, old(y[..]), AadOctets(aad[..]))
      {
        l := if alen > 16 then 16 else alen;
        CbcStep(enc, y[..], aad[at..], l);
        assert aad[at..][..l] == aad[at..at + l] && aad[at..][l..] == aad[at + l..];
        Absorb(key, aad[at..at + l], b, y);
        at := at + l;
        alen := alen - l;
      }
      assert aad[at..] == [];
      CbcOfNothing(enc, y[..]);
    }
  }

  lemma CbcOfNothing(enc: Cipher, y: Block)
    ensures CbcMac(enc, y, Padded([])) == y
    ensures CbcMac(enc, y, AadOctets([])) == y
  {
  }

  method AbsorbPayload(key: array<bv8>, p: array<bv8>, b: array<bv8>, y: array<bv8>)
    requires key.Length == 16 && b.Length == 16 && y.Length == 16 && b != y && b != key && y != key && b != p && y != p
    modifies b, y
    ensures y[..] == CbcMac(Enc(key[..]), old(y[..]), Padded(p[..]))
  {
    hide Xor, Padded, Enc, CbcMac, Repeat;
    ghost var enc := Enc(key[..]);
    var at: nat, plen: nat := 0, p.Length;
    assert p[0..] == p[..];
    while plen > 0
      invariant at + plen == p.Length
      invariant CbcMac(enc, y[..], Padded(p[at..])) == CbcMac(enc, old(y[..]), Padded(p[..]))
    {
      var l := if plen > 16 then 16 else plen;
      CbcStep(enc, y[..], p[at..], l);
      assert p[at..][..l] == p[at..at + l] && p[at..][l..] == p[at + l..];
      Absorb(key, p[at..at + l], b, y);
      at := at + l;
      plen := plen - l;
    }
    assert p[at..] == [];
    CbcOfNothing(enc, y[..]);
  }

  method GenerateT(key: array<bv8>, nonce: array<bv8>, aad: array<bv8>, p: array<bv8>, m: array<bv8>, mlen: nat)
    requires key.Length == 16 && nonce.Length <= 15 && mlen <= 16 && mlen <= m.Length && m !in {key, nonce, aad, p}
    modifies m
    ensures m[..mlen] == Tag(Enc(key[..]), nonce[..], aad[..], p[..], mlen)
  {
    hide B0, CbcMac, Padded, AadOctets, Aes.Encrypted;
    var b, y := new bv8[16], new bv8[16];
    GenerateB0(nonce, aad.Length, p.Length, mlen, b);
    Aes.Encrypt(b, key, y);
    AbsorbAad(key, aad, b, y);
    AbsorbPayload(key, p, b, y);
    assert y[..] == MacFrom(Enc(key[..]), B0(nonce[..], aad.Length, p.Length, mlen), aad[..], p[..]);
    Copy(m, 0, y[..mlen]);
  }

  /** The part still to do is p from 16 * j on. */
  method Crypt(key: array<bv8>, nonce: array<bv8>, p: array<bv8>)
    requires key.Length == 16 && nonce.Length <= 15 && p != key && p != nonce
    modifies p
    ensures p[..] == Crypted(Enc(key[..]), nonce[..], old(p[..]), 0)
  {
    hide KeyBlock, Enc, Xor;
    ghost var enc, all := Enc(key[..]), Crypted(Enc(key[..]), nonce[..], p[..], 0);
    var j: nat, at: nat, plen: nat := 0, 0, p.Length;
    var s := new bv8[16];
    assert p[0..] == p[..];
    while plen > 0
      invariant fresh(s)
      invariant at + plen == p.Length && (plen > 0 ==> at == j * 16)
      invariant p[..at] + Crypted(enc, nonce[..], p[at..], j) == all
    {
      var l := if plen > 16 then 16 else plen;
      GenerateS(key, nonce, j + 1, s);
      ghost var before := p[..];
      Bxory(p, at, s, l);
      CryptStep(enc, nonce[..], before, p[..], at, j, l);
      j := j + 1;
      at := at + l;
      plen := plen - l;
    }
  }

  lemma CryptStep(enc: Cipher, nonce: seq<bv8>, before: seq<bv8>, after: seq<bv8>, at: nat, j: nat, l: nat)
    requires |nonce| <= 15 && at < |before|
    requires l == if |before| - at > 16 then 16 else |before| - at
    requires after == before[..at] + Xor(before[at..at + l], KeyBlock(enc, nonce, j + 1)) + before[at + l..]
    ensures after[..at + l] + Crypted(enc, nonce, after[at + l..], j + 1)
         == before[..at] + Crypted(enc, nonce, before[at..], j)
  {
    hide Xor, KeyBlock;
    var block := Xor(before[at..at + l], KeyBlock(enc, nonce, j + 1));
    assert after[..at + l] == before[..at] + block;
    assert after[at + l..] == before[at + l..];
    assert before[at..][..l] == before[at..at + l] && before[at..][l..] == before[at + l..];
    var rest := Crypted(enc, nonce, before[at + l..], j + 1);
    if |before[at..]| <= 16 {
      assert before[at..] == before[at..at + l] && rest == [];
    }
    assert Crypted(enc, nonce, before[at..], j) == block + rest;
    assert before[..at] + block + rest == before[..at] + (block + rest);
  }

  /** aes128ccm_encrypt: p becomes the ciphertext and m the tag that travels with it. */
  method Encrypt(key: array<bv8>, nonce: array<bv8>, aad: array<bv8>, p: array<bv8>, m: array<bv8>)
    requires key.Length == 16 && nonce.Length <= 15 && m.Length <= 16
    requires m !in {key, nonce, aad, p} && p !in {key, nonce, aad}
    modifies p, m
    ensures p[..] == Crypted(Enc(key[..]), nonce[..], old(p[..]), 0)
    ensures m[..] == SealedTag(Enc(key[..]), nonce[..], aad[..], old(p[..]), m.Length)
  {
    hide Enc, Tag, KeyBlock, Xor, Crypted;
    var s := new bv8[16];
    GenerateT(key, nonce, aad, p, m, m.Length);
    assert m[..] == m[..m.Length];
    GenerateS(key, nonce, 0, s);
    ghost var tag := m[..];
    assert m[0..m.Length] == tag;
    Bxory(m, 0, s, m.Length);
    assert m[..] == Xor(tag, s[..]);
    assert m[..] == SealedTag(Enc(key[..]), nonce[..], aad[..], p[..], m.Length);
    Crypt(key, nonce, p);
  }

  /** memcmp: zero exactly when the octets agree. */
  method Memcmp(a: array<bv8>, b: array<bv8>, n: nat) returns (r: int)
    requires n <= a.Length && n <= b.Length
    ensures r == 0 <==> a[..n] == b[..n]
  {
    for i := 0 to n
      invariant a[..i] == b[..i]
    {
      if a[i] != b[i] {
        assert a[..n][i] != b[..n][i];
        return if a[i] < b[i] then -1 else 1;
      }
    }
    return 0;
  }

  /** aes128ccm_decrypt: p becomes the plaintext, and the result is 0 exactly when m is the tag of that plaintext. */
  method Decrypt(key: array<bv8>, nonce: array<bv8>, aad: array<bv8>, p: array<bv8>, m: array<bv8>) returns (r: int)
    requires key.Length == 16 && nonce.Length <= 15 && m.Length <= 16
    requires p !in {key, nonce, aad, m}
    modifies p
    ensures p[..] == Crypted(Enc(key[..]), nonce[..], old(p[..]), 0)
    ensures r == 0 <==> m[..] == SealedTag(Enc(key[..]), nonce[..], aad[..], p[..], m.Length)
  {
    hide Enc, Tag, KeyBlock, Xor, Crypted;
    var s, tmp := new bv8[16], new bv8[16];
    Crypt(key, nonce, p);
    GenerateT(key, nonce, aad, p, tmp, m.Length);
    GenerateS(key, nonce, 0, s);
    ghost var tag := tmp[..m.Length];
    assert tmp[0..m.Length] == tag;
    Bxory(tmp, 0, s, m.Length);
    assert tmp[..m.Length] == Xor(tag, s[..]);
    r := Memcmp(tmp, m, m.Length);
    assert m[..] == m[..m.Length];
  }

  /** Decrypting what Encrypt left restores the payload and accepts it. */
  method RoundTrip(key: array<bv8>, nonce: array<bv8>, aad: array<bv8>, p: array<bv8>, m: array<bv8>) returns (r: int)
    requires key.Length == 16 && nonce.Length <= 15 && m.Length <= 16
    requires m !in {key, nonce, aad, p} && p !in {key, nonce, aad}
    modifies p, m
    ensures r == 0 && p[..] == old(p[..])
  {
    hide Enc, Crypted, SealedTag;
    CryptedTwice(Enc(key[..]), nonce[..], p[..], 0);
    Encrypt(key, nonce, aad, p, m);
    r := Decrypt(key, nonce, aad, p, m);
  }
}
