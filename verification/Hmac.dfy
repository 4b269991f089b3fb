/** HMAC, section 2 of RFC 2104, as lib/hmac.c computes it over the USHA streams and lib/hmac-md5.c over MD5. */
module Hmac {
  import opened Sequences
  import opened Hashing
  import Md5

  /** A hash function with the octet sizes of its blocks and of its digests. */
  datatype Hash = Hash(digest: seq<bv8> -> seq<bv8>, blockSize: nat, hashSize: nat)

  ghost predicate Sound(h: Hash) {
    h.hashSize <= h.blockSize && forall m :: |h.digest(m)| == h.hashSize
  }

  function XorEach(s: seq<bv8>, x: bv8): (r: seq<bv8>)
    ensures |r| == |s|
  {
    seq(|s|, i requires 0 <= i < |s| => s[i] ^ x)
  }

  /** The key, hashed if it is longer than a block, with zeros up to a block. */
  function BlockKey(h: Hash, key: seq<bv8>): seq<bv8> {
    var k := if |key| > h.blockSize then h.digest(key) else key;
    k + Repeat(0, if |k| < h.blockSize then h.blockSize - |k| else 0)
  }

  function Mac(h: Hash, key: seq<bv8>, text: seq<bv8>): seq<bv8> {
    var k := BlockKey(h, key);
    h.digest(XorEach(k, 0x5c) + h.digest(XorEach(k, 0x36) + text))
  }

  /** A USHAContext: what it has taken in since its reset, and whether the result is out. */
  class Stream {
    var hash: Hash
    var input: seq<bv8>
    var computed: bool

    constructor (h: Hash)
      ensures hash == h && input == [] && !computed
    {
      hash, input, computed := h, [], false;
    }

    method Reset(h: Hash)
      modifies this
      ensures hash == h && input == [] && !computed
    {
      hash, input, computed := h, [], false;
    }

    method Input(octets: seq<bv8>)
      requires !computed
      modifies this
      ensures hash == old(hash) && input == old(input) + octets && !computed
    {
      input := input + octets;
    }

    method Result(digest: array<bv8>)
      requires !computed && Sound(hash) && hash.hashSize <= digest.Length
      modifies this, digest
      ensures hash == old(hash) && input == old(input) && computed
      ensures digest[..hash.hashSize] == hash.digest(input)
      ensures digest[hash.hashSize..] == old(digest[hash.hashSize..])
    {
      var d := hash.digest(input);
      for i := 0 to hash.hashSize
        invariant hash == old(hash) && input == old(input) && !computed
        invariant digest[..i] == d[..i] && digest[hash.hashSize..] == old(digest[hash.hashSize..])
      {
        digest[i] := d[i];
      }
      computed := true;
    }
  }

  /** HMACContext. */
  class Context {
    var hash: Hash
    const stream: Stream
    const kOpad: array<bv8>
    ghost var key: seq<bv8>
    ghost var text: seq<bv8>

    ghost predicate Valid()
      reads this, stream, kOpad
    {
      && Sound(hash) && stream.hash == hash && !stream.computed
      && hash.blockSize <= kOpad.Length
      && kOpad[..hash.blockSize] == XorEach(BlockKey(hash, key), 0x5c)
      && stream.input == XorEach(BlockKey(hash, key), 0x36) + text
    }

    /** The largest block any of the hashes has. */
    constructor (maxBlock: nat, h: Hash)
      ensures kOpad.Length == maxBlock && fresh(stream) && fresh(kOpad)
    {
      hash := h;
      stream := new Stream(h);
      kOpad := new bv8[maxBlock];
    }

    /** hmacReset. */
    method Reset(h: Hash, k: seq<bv8>)
      requires Sound(h) && h.blockSize <= kOpad.Length
      modifies this, stream, kOpad
      ensures Valid() && hash == h && key == k && text == []
    {
      hide BlockKey, XorEach, Sound;
      hash, key, text := h, k, [];
      var kIpad := new bv8[kOpad.Length];
      var used := HashedKey(h, k);
      FillPads(used, h.blockSize, kIpad);
      stream.Reset(h);
      stream.Input(kIpad[..h.blockSize]);
      assert stream.input == XorEach(BlockKey(h, k), 0x36) + [];
    }

    method HashedKey(h: Hash, k: seq<bv8>) returns (used: seq<bv8>)
      requires Sound(h)
      ensures |used| <= h.blockSize && BlockKey(h, k) == used + Repeat(0, h.blockSize - |used|)
    {
      used := k;
      if |used| > h.blockSize {
        var tempkey := new bv8[h.hashSize];
        var t := new Stream(h);
        t.Input(k);
        t.Result(tempkey);
        used := tempkey[..h.hashSize];
        assert [] + k == k;
      }
    }

    /** The two loops over the pads. */
    method FillPads(used: seq<bv8>, blockSize: nat, kIpad: array<bv8>)
      requires |used| <= blockSize <= kOpad.Length == kIpad.Length && kIpad != kOpad
      modifies kOpad, kIpad
      ensures kOpad[..blockSize] == XorEach(used + Repeat(0, blockSize - |used|), 0x5c)
      ensures kIpad[..blockSize] == XorEach(used + Repeat(0, blockSize - |used|), 0x36)
    {
      var i := 0;
      while i < |used|
        invariant i <= |used|
        invariant forall k :: 0 <= k < i ==> kOpad[k] == used[k] ^ 0x5c && kIpad[k] == used[k] ^ 0x36
      {
        kIpad[i] := used[i] ^ 0x36;
        kOpad[i] := used[i] ^ 0x5c;
        i := i + 1;
      }
      XorZero();
      while i < blockSize
        invariant |used| <= i <= blockSize
        invariant forall k :: 0 <= k < |used| ==> kOpad[k] == used[k] ^ 0x5c && kIpad[k] == used[k] ^ 0x36
        invariant forall k :: |used| <= k < i ==> kOpad[k] == 0x5c && kIpad[k] == 0x36
      {
        kIpad[i] := 0x36;
        kOpad[i] := 0x5c;
        i := i + 1;
      }
    }

    /** hmacInput. */
    method Input(octets: seq<bv8>)
      requires Valid()
      modifies this, stream
      ensures Valid() && hash == old(hash) && key == old(key) && text == old(text) + octets
    {
      hide XorEach, BlockKey;
      assert XorEach(BlockKey(hash, key), 0x36) + text + octets == XorEach(BlockKey(hash, key), 0x36) + (text + octets);
      stream.Input(octets);
      text := text + octets;
    }

    /** hmacResult: the caller's digest holds the inner hash for a while. */
    method Result(digest: array<bv8>)
      requires Valid() && hash.hashSize <= digest.Length && digest != kOpad
      modifies stream, digest
      ensures digest[..hash.hashSize] == Mac(hash, key, text)
    {
      hide XorEach, BlockKey;
      stream.Result(digest);
      stream.Reset(hash);
      stream.Input(kOpad[..hash.blockSize]);
      stream.Input(digest[..hash.hashSize]);
      stream.Result(digest);
      assert [] + kOpad[..hash.blockSize] == kOpad[..hash.blockSize];
    }
  }

  lemma XorZero()
    ensures 0 as bv8 ^ 0x5c == 0x5c && 0 as bv8 ^ 0x36 == 0x36
  {
  }

  /** One value whatever way the text was cut into inputs. */
  method MacInPieces(h: Hash, key: seq<bv8>, pieces: seq<seq<bv8>>, digest: array<bv8>)
    requires Sound(h) && h.hashSize <= digest.Length
    modifies digest
    ensures digest[..h.hashSize] == Mac(h, key, Joined(pieces))
  {
    hide Sound, Mac, XorEach, BlockKey;
    var ctx := new Context(h.blockSize, h);
    ctx.Reset(h, key);
    for i := 0 to |pieces|
      invariant ctx.Valid() && ctx.hash == h && ctx.key == key && ctx.text == Joined(pieces[..i])
      invariant fresh(ctx) && fresh(ctx.stream) && fresh(ctx.kOpad)
    {
      ctx.Input(pieces[i]);
      assert pieces[..i + 1][..i] == pieces[..i];
    }
    assert pieces[..|pieces|] == pieces;
    ctx.Result(digest);
  }

  /** hmac: the whole text at once. */
  method Whole(h: Hash, text: seq<bv8>, key: seq<bv8>, digest: array<bv8>)
    requires Sound(h) && h.hashSize <= digest.Length
    modifies digest
    ensures digest[..h.hashSize] == Mac(h, key, text)
  {
    hide Mac, XorEach, BlockKey;
    var ctx := new Context(h.blockSize, h);
    ctx.Reset(h, key);
    ctx.Input(text);
    assert [] + text == text;
    ctx.Result(digest);
  }

  // ----- lib/hmac-md5.c -----

  const MD5: Hash := Hash((m: seq<bv8>) => Md5.Md5(m), 64, 16)

  /** The pads: the key at the front of 65 zeros, of which 64 are combined with the constants. */
  method Md5Pad(key: seq<bv8>, x: bv8) returns (pad: seq<bv8>)
    requires |key| <= 64
    ensures pad == XorEach(key + Repeat(0, 64 - |key|), x)
  {
    var k := new bv8[65];
    for i := 0 to 65
      invariant forall j :: 0 <= j < i ==> k[j] == 0
    {
      k[i] := 0;
    }
    for i := 0 to |key|
      invariant forall j :: 0 <= j < 65 ==> k[j] == if j < i then key[j] else 0
    {
      k[i] := key[i];
    }
    ghost var filled := key + Repeat(0, 64 - |key|);
    for i := 0 to 64
      invariant forall j :: 0 <= j < 64 ==> k[j] == if j < i then filled[j] ^ x else filled[j]
    {
      k[i] := k[i] ^ x;
    }
    pad := k[..64];
  }

  /** One pass of MD5 over a pad and what follows it. */
  method Md5Pass(context: Md5.Context, pad: seq<bv8>, rest: seq<bv8>, digest: array<bv8>)
    requires context.buf.Length == 4 && context.block.Length == 64
    requires |pad| == 64 && |rest| < TWO32 && digest.Length == 16 && digest != context.block
    modifies context, context.buf, context.block, digest
    ensures digest[..] == Md5.Md5(pad + rest)
    ensures context.buf.Length == 4 && context.block.Length == 64
  {
    hide Md5.Md5, Holds;
    context.Init();
    context.Update(pad);
    context.Update(rest);
    assert [] + pad + rest == pad + rest;
    context.Final(digest);
  }

  /** smb2_hmac_md5. */
  method HmacMd5(text: seq<bv8>, key: seq<bv8>, digest: array<bv8>)
    requires |text| < 0x8000_0000 && |key| < TWO32 && digest.Length == 16
    modifies digest
    ensures digest[..] == Mac(MD5, key, text)
  {
    hide Md5.Md5, XorEach, Repeat;
    var used := key;
    if |key| > 64 {
      var tk := new bv8[16];
      var tctx := new Md5.Context();
      tctx.Update(key);
      assert [] + key == key;
      tctx.Final(tk);
      used := tk[..];
    }
    var kIpad := Md5Pad(used, 0x36);
    var kOpad := Md5Pad(used, 0x5c);
    assert BlockKey(MD5, key) == used + Repeat(0, 64 - |used|);
    var context := new Md5.Context();
    Md5Pass(context, kIpad, text, digest);
    Md5Pass(context, kOpad, digest[..], digest);
  }

  /** RFC 2104 keys are only told apart as blocks: trailing zeros up to the block size change nothing. */
  lemma ZerosChangeNothing(h: Hash, key: seq<bv8>, n: nat, text: seq<bv8>)
    requires |key| + n <= h.blockSize
    ensures Mac(h, key + Repeat(0, n), text) == Mac(h, key, text)
  {
    assert BlockKey(h, key + Repeat(0, n)) == BlockKey(h, key);
  }

  /** Octet k of the key as a block: hashed first if it is longer than one, and filled with zeros. */
  function KeyOctet(h: Hash, key: seq<bv8>, k: nat): bv8 {
    if |key| <= h.blockSize then (if k < |key| then key[k] else 0)
    else if k < |h.digest(key)| then h.digest(key)[k]
    else 0
  }

  /** H(K XOR opad, H(K XOR ipad, text)). */
  lemma MacIsStandard(h: Hash, key: seq<bv8>, text: seq<bv8>)
    requires Sound(h)
    ensures var opad := seq(h.blockSize, k requires 0 <= k < h.blockSize => KeyOctet(h, key, k) ^ 0x5c);
      var ipad := seq(h.blockSize, k requires 0 <= k < h.blockSize => KeyOctet(h, key, k) ^ 0x36);
      Mac(h, key, text) == h.digest(opad + h.digest(ipad + text))
  {
    var opad := seq(h.blockSize, k requires 0 <= k < h.blockSize => KeyOctet(h, key, k) ^ 0x5c);
    var ipad := seq(h.blockSize, k requires 0 <= k < h.blockSize => KeyOctet(h, key, k) ^ 0x36);
    assert XorEach(BlockKey(h, key), 0x5c) == opad;
    assert XorEach(BlockKey(h, key), 0x36) == ipad;
  }
}
