/** MD5 over a stream, lib/md5.c. */
module Md5 {
  import opened Sequences
  import opened Hashing
  import opened Md5Steps

  /** Section 3 of RFC 1321. */
  function Md5(m: seq<bv8>): (r: seq<bv8>)
    ensures |r| == 16
  {
    Digest(Compress, IV, m)
  }

  /** The byte count goes up by length, the carry into the high word included. */
  lemma CountGrows(low: nat, high: nat, before: nat, length: nat)
    requires low < TWO32 && high < TWO32 && length < TWO32
    requires low + TWO32 * high == before % TWO64
    ensures var low1 := (low + length) % TWO32;
      low1 + TWO32 * (if low1 < low then (high + 1) % TWO32 else high) == (before + length) % TWO64
  {
    var q := before / TWO64;
    assert before == TWO64 * q + low + TWO32 * high;
    var low1 := (low + length) % TWO32;
    if low + length < TWO32 {
      assert low1 == low + length;
      Residue(before + length, q, low1 + TWO32 * high);
    } else {
      assert low1 == low + length - TWO32;
      if high + 1 < TWO32 {
        Residue(before + length, q, low1 + TWO32 * (high + 1));
      } else {
        assert (high + 1) % TWO32 == 0;
        Residue(before + length, q + 1, low1);
      }
    }
  }

  lemma Residue(n: nat, q: nat, r: nat)
    requires n == TWO64 * q + r && r < TWO64
    ensures n % TWO64 == r
  {
  }

  lemma LowBits(low: nat, high: nat, n: nat)
    requires low < TWO32 && low + TWO32 * high == n % TWO64
    ensures low % 64 == n % 64
  {
    assert n == TWO64 * (n / TWO64) + low + TWO32 * high;
  }

  /** The two words MD5Final appends are the bit length modulo 2^64. */
  lemma BitLength(low: nat, high: nat, n: nat)
    requires low < TWO32 && high < TWO32 && low + TWO32 * high == n % TWO64
    ensures low * 8 % TWO32 == 8 * n % TWO32
    ensures high * 8 % TWO32 + low / 0x2000_0000 == 8 * n / TWO32 % TWO32
    ensures high * 8 % TWO32 + low / 0x2000_0000 < TWO32
  {
    var q, carry, rest := n / TWO64, low / 0x2000_0000, low % 0x2000_0000;
    var lost, kept := high / 0x2000_0000, high % 0x2000_0000;
    DivMod(low * 8, TWO32, carry, 8 * rest);
    DivMod(high * 8, TWO32, lost, 8 * kept);
    assert 8 * n == TWO32 * (TWO32 * (8 * q + lost) + 8 * kept + carry) + 8 * rest;
    DivMod(8 * n, TWO32, TWO32 * (8 * q + lost) + 8 * kept + carry, 8 * rest);
    DivMod(8 * n / TWO32, TWO32, 8 * q + lost, 8 * kept + carry);
  }

  /** struct MD5Context. The octets of ctx->in are kept in the order they are hashed. */
  class Context {
    const buf: array<bv32>
    const block: array<bv8>
    var low: nat
    var high: nat
    ghost var message: seq<bv8>

    ghost predicate Held()
      reads this, buf, block
    {
      buf.Length == 4 && block.Length == 64 && Holds(Compress, IV, message, buf[..], block[..])
    }

    /** The octet count, kept in two words. */
    ghost predicate Counted(length: nat)
      reads this
    {
      low < TWO32 && high < TWO32 && low + TWO32 * high == length % TWO64
    }

    ghost predicate Valid()
      reads this, buf, block
    {
      Held() && Counted(|message|)
    }

    constructor ()
      ensures Valid() && message == [] && fresh(buf) && fresh(block)
    {
      buf, block := new bv32[4], new bv8[64];
      new;
      Init();
    }

    /** MD5Init. */
    method Init()
      requires buf.Length == 4 && block.Length == 64
      modifies this, buf
      ensures Valid() && message == []
    {
      hide Holds, Compress;
      buf[0] := 0x67452301;
      buf[1] := 0xefcdab89;
      buf[2] := 0x98badcfe;
      buf[3] := 0x10325476;
      low, high := 0, 0;
      message := [];
      assert buf[..] == IV;
      HoldsNothing(Compress, IV, block[..]);
    }

    method Count(length: nat)
      requires length < TWO32 && Counted(|message|)
      modifies `low, `high
      ensures Counted(|message| + length)
    {
      CountGrows(low, high, |message|, length);
      var t := low;
      low := (t + length) % TWO32;
      if low < t {
        high := (high + 1) % TWO32;
      }
    }

    method Memcpy(at: nat, data: seq<bv8>)
      requires at + |data| <= block.Length
      modifies block
      ensures block[..] == old(block[..at]) + data + old(block[at + |data|..])
    {
      for i := 0 to |data|
        invariant forall k :: 0 <= k < block.Length ==> block[k] == if at <= k < at + i then data[k - at] else old(block[k])
      {
        block[at + i] := data[i];
      }
    }

    method Memset(at: nat, count: nat)
      requires at + count <= block.Length
      modifies block
      ensures block[..] == old(block[..at]) + Repeat(0, count) + old(block[at + count..])
    {
      Memcpy(at, Repeat(0, count));
    }

    /** A copy that leaves room in the block. */
    method Keep(at: nat, data: seq<bv8>)
      requires Held() && at == |message| % 64 && at + |data| < 64
      modifies `message, block
      ensures Held() && message == old(message) + data
    {
      hide Holds, Compress;
      HoldsMore(Compress, IV, message, buf[..], block[..], data);
      Memcpy(at, data);
      message := message + data;
    }

    /** A copy that fills the block, which is then transformed. */
    method Fill(at: nat, data: seq<bv8>)
      requires Held() && at == |message| % 64 && at + |data| == 64
      modifies `message, buf, block
      ensures Held() && message == old(message) + data && |message| % 64 == 0
    {
      hide Holds, Compress;
      ghost var before: Block := block[..];
      Memcpy(at, data);
      assert block[..] == before[..at] + data;
      HoldsFull(Compress, IV, message, buf[..], before, data, block[..]);
      TailSize(message, data);
      Transform(buf, block);
      message := message + data;
    }

    /** MD5Update. */
    method Update(data: seq<bv8>)
      requires Valid() && |data| < TWO32
      modifies this, buf, block
      ensures Valid() && message == old(message) + data
    {
      hide Holds, Compress;
      ghost var m := message;
      LowBits(low, high, |message|);
      var t := low;
      Count(|data|);
      t := 64 - t % 64;
      if t > |data| {
        Keep(64 - t, data);
        return;
      }
      Fill(64 - t, data[..t]);
      var at := t;
      while |data| - at >= 64
        invariant Held() && at <= |data| && message == m + data[..at] && |message| % 64 == 0
        invariant Counted(|m| + |data|)
      {
        Fill(0, data[at..at + 64]);
        assert m + data[..at] + data[at..at + 64] == m + data[..at + 64];
        at := at + 64;
      }
      Keep(0, data[at..]);
      assert m + data[..at] + data[at..] == m + data;
    }

    /** The one bit and the zeros up to the length, which may take a block of their own. */
    method Pad() returns (ghost filler: seq<bv8>)
      requires Valid()
      modifies `message, buf, block
      ensures Held() && |message| % 64 + |filler| == 56
      ensures block[..56] == Tail(message) + filler
      ensures message + filler == old(message + Padding(message))
    {
      hide Holds, Compress;
      LowBits(low, high, |message|);
      ZerosNeeded(|message|);
      TailHeld(Compress, message, buf[..], block[..]);
      var count := low % 64;
      block[count] := 0x80;
      filler := [0x80];
      var from := count + 1;
      count := 56 - 1 - count;
      if count < 0 {
        ghost var before: Block := old(block[..]);
        ghost var data := [0x80] + Repeat(0, count + 8);
        Memset(from, count + 8);
        assert block[..] == before[..|message| % 64] + data;
        HoldsFull(Compress, IV, message, buf[..], before, data, block[..]);
        TailSize(message, data);
        Transform(buf, block);
        message := message + data;
        filler := [];
        from := 0;
        count := 56;
        TailHeld(Compress, message, buf[..], block[..]);
      } else {
        HoldsAnyRest(Compress, message, buf[..], old(block[..]), block[..]);
      }
      ghost var padded: Block := block[..];
      Memset(from, count);
      HoldsAnyRest(Compress, message, buf[..], padded, block[..]);
      filler := filler + Repeat(0, count);
    }

    /** MD5Final; it also clears the context, which stays out of use until it is initialised again. */
    method Final(digest: array<bv8>)
      requires Valid() && digest.Length == 16 && digest != block
      modifies this, buf, block, digest
      ensures digest[..] == Md5(old(message))
      ensures low == high == 0 && buf.Length == 4 && block.Length == 64
    {
      hide Holds, Compress, Digest, Padded;
      ghost var m := message;
      ghost var filler := Pad();
      LastBlock(m, filler);
      HoldsPadded(Compress, IV, m, buf[..], block[..]);
      Output(digest);
      low, high := 0, 0;
    }

    /** The length goes in, and then the last block. */
    method LastBlock(ghost m: seq<bv8>, ghost filler: seq<bv8>)
      requires Held() && Counted(|m|) && |message| % 64 + |filler| == 56
      requires block[..56] == Tail(message) + filler && message + filler == m + Padding(m)
      modifies buf, block
      ensures buf.Length == 4 && block.Length == 64
      ensures Holds(Compress, IV, Padded(m), buf[..], block[..])
    {
      hide Holds, Compress, LengthOctets;
      AppendLength(|m|);
      ghost var before: Block := block[..];
      ghost var data := filler + LengthOctets(8 * |m|);
      TailHeld(Compress, message, buf[..], before);
      assert block[..] == before[..|message| % 64] + data;
      HoldsFull(Compress, IV, message, buf[..], before, data, block[..]);
      assert message + data == Padded(m);
      Transform(buf, block);
    }

    /** The last two words: bytes[0] << 3, and bytes[1] << 3 | bytes[0] >> 29. */
    method AppendLength(ghost length: nat)
      requires Held() && Counted(length) && |message| % 64 <= 56
      modifies block
      ensures Held()
      ensures block[..] == old(block[..56]) + LengthOctets(8 * length)
    {
      hide Holds, Compress, OctetsOf, Word32;
      BitLength(low, high, length);
      ghost var before: Block := block[..];
      Memcpy(56, OctetsOf(Word32(low * 8 % TWO32)));
      Memcpy(60, OctetsOf(Word32(high * 8 % TWO32 + low / 0x2000_0000)));
      HoldsAnyRest(Compress, message, buf[..], before, block[..]);
    }

    method Output(digest: array<bv8>)
      requires buf.Length == 4 && digest.Length == 16
      modifies digest
      ensures digest[..] == Encoded(buf[..])
    {
      hide OctetsOf;
      var octets := Encoded(buf[..]);
      for i := 0 to 16
        invariant digest[..i] == octets[..i]
      {
        digest[i] := octets[i];
      }
    }
  }

  lemma TailHeld(f: Compression, m: seq<bv8>, chain: Chain, block: Block)
    requires Holds(f, IV, m, chain, block)
    ensures block[..|m| % 64] == Tail(m)
  {
  }

  lemma HoldsAnyRest(f: Compression, m: seq<bv8>, chain: Chain, block: Block, other: Block)
    requires Holds(f, IV, m, chain, block) && other[..|m| % 64] == block[..|m| % 64]
    ensures Holds(f, IV, m, chain, other)
  {
  }

  /** One digest whatever way the message was cut into updates. */
  method HashInPieces(pieces: seq<seq<bv8>>, digest: array<bv8>)
    requires digest.Length == 16 && forall i :: 0 <= i < |pieces| ==> |pieces[i]| < TWO32
    modifies digest
    ensures digest[..] == Md5(Joined(pieces))
  {
    hide Holds, Compress, Md5;
    var ctx := new Context();
    for i := 0 to |pieces|
      invariant ctx.Valid() && ctx.message == Joined(pieces[..i])
      invariant fresh(ctx) && fresh(ctx.buf) && fresh(ctx.block)
    {
      ctx.Update(pieces[i]);
      assert pieces[..i + 1][..i] == pieces[..i];
    }
    assert pieces[..|pieces|] == pieces;
    ctx.Final(digest);
  }
}
