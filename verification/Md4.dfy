/** MD4 over a stream, lib/md4c.c. Unlike MD5 it counts bits, and it pads through its own update routine. */
module Md4 {
  import opened Sequences
  import opened Hashing
  import opened Md4Steps

  /** Section 3 of RFC 1320. */
  function Md4(m: seq<bv8>): (r: seq<bv8>)
    ensures |r| == 16
  {
    Digest(Compress, IV, m)
  }

  /** Eight times the length goes into the two words, in two parts and with a carry. */
  lemma BitsGrow(low: nat, high: nat, before: nat, length: nat)
    requires low < TWO32 && high < TWO32 && length < TWO32
    requires low + TWO32 * high == 8 * before % TWO64
    ensures var bits := 8 * length % TWO32;
      var low1 := (low + bits) % TWO32;
      var high1 := if low1 < bits then (high + 1) % TWO32 else high;
      low1 + TWO32 * ((high1 + length / 0x2000_0000) % TWO32) == 8 * (before + length) % TWO64
  {
    var top, rest := length / 0x2000_0000, length % 0x2000_0000;
    DivMod(8 * length, TWO32, top, 8 * rest);
    var carry := if low + 8 * rest < TWO32 then 0 else 1;
    var low1 := low + 8 * rest - TWO32 * carry;
    DivMod(low + 8 * rest, TWO32, carry, low1);
    Carried(low1, high + carry + top, 8 * before / TWO64, 8 * (before + length));
    if carry == 1 {
      WrapsOnce(high + 1, top);
    }
  }

  lemma WrapsOnce(n: nat, m: nat)
    ensures (n % TWO32 + m) % TWO32 == (n + m) % TWO32
  {
  }

  lemma Carried(low: nat, sum: nat, q: nat, bits: nat)
    requires low < TWO32 && sum < 2 * TWO32 && bits == TWO64 * q + low + TWO32 * sum
    ensures low + TWO32 * (sum % TWO32) == bits % TWO64
  {
    var wraps := if sum < TWO32 then 0 else 1;
    DivMod(bits, TWO64, q + wraps, low + TWO32 * (sum - TWO32 * wraps));
    DivMod(sum, TWO32, wraps, sum - TWO32 * wraps);
  }

  lemma BitIndex(low: nat, high: nat, length: nat)
    requires low < TWO32 && low + TWO32 * high == 8 * length % TWO64
    ensures low / 8 % 64 == length % 64
  {
    var q := 8 * length / TWO64;
    var k := length - 0x2000_0000_0000_0000 * q - 0x2000_0000 * high;
    assert low == 8 * k;
    DivMod(low, 8, k, 0);
    DivMod(length, 64, 0x80_0000_0000_0000 * q + 0x80_0000 * high + k / 64, k % 64);
  }

  lemma CountIsLength(low: nat, high: nat, length: nat)
    requires low < TWO32 && high < TWO32 && low + TWO32 * high == 8 * length % TWO64
    ensures low == 8 * length % TWO32 && high == 8 * length / TWO32 % TWO32
  {
    var q := 8 * length / TWO64;
    assert 8 * length == TWO32 * (TWO32 * q + high) + low;
    DivMod(8 * length, TWO32, TWO32 * q + high, low);
    DivMod(8 * length / TWO32, TWO32, q, high);
  }

  /** Where the last full block of an update ends, if the update fills at least one. */
  function BlocksEnd(index: nat, length: nat): nat
    requires index < 64 && 64 - index <= length
  {
    length - (length - (64 - index)) % 64
  }

  /** Whether the test i + 63 < inputLen of the loop stays clear of the wrap of unsigned arithmetic. */
  predicate Bounded(index: nat, length: nat)
    requires index < 64
  {
    64 - index <= length ==> BlocksEnd(index, length) + 63 < TWO32
  }

  /** The position of the loop after so many blocks, and its test there. */
  function Position(index: nat, j: nat): nat
    requires index < 64
  {
    64 - index + 64 * j
  }

  predicate Test(index: nat, length: nat, j: nat)
    requires index < 64
  {
    (Position(index, j) + 63) % TWO32 < length
  }

  /** The tests before all held. */
  ghost predicate Reached(index: nat, length: nat, j: nat)
    requires index < 64
  {
    forall k: nat :: k < j ==> Test(index, length, k)
  }

  /** At every position the loop comes to, it goes on exactly if a whole block of the input is left. */
  ghost predicate StopsInTime(index: nat, length: nat)
    requires index < 64
  {
    forall j: nat :: Reached(index, length, j) ==> (Test(index, length, j) <==> Position(index, j) + 64 <= length)
  }

  lemma BoundedExactly(index: nat, length: nat)
    requires index < 64 && 64 - index <= length < TWO32
    ensures Bounded(index, length) <==> StopsInTime(index, length)
  {
    var blocks := (length - (64 - index)) / 64;
    assert BlocksEnd(index, length) == Position(index, blocks);
    assert Reached(index, length, blocks);
    assert Test(index, length, blocks) <==> Position(index, blocks) + 63 >= TWO32;
    if Bounded(index, length) {
      forall j: nat | Reached(index, length, j)
        ensures Test(index, length, j) <==> Position(index, j) + 64 <= length
      {
        assert j <= blocks;
      }
    }
  }

  lemma OverrunExample()
    ensures !Bounded(63, TWO32 - 1)
  {
  }

  /** MD4_CTX. */
  class Context {
    const state: array<bv32>
    const buffer: array<bv8>
    var low: nat
    var high: nat
    ghost var message: seq<bv8>

    ghost predicate Held()
      reads this, state, buffer
    {
      state.Length == 4 && buffer.Length == 64 && Holds(Compress, IV, message, state[..], buffer[..])
    }

    /** The bit count, kept in two words. */
    ghost predicate Counted(length: nat)
      reads this
    {
      low < TWO32 && high < TWO32 && low + TWO32 * high == 8 * length % TWO64
    }

    ghost predicate Valid()
      reads this, state, buffer
    {
      Held() && Counted(|message|)
    }

    constructor ()
      ensures Valid() && message == [] && fresh(state) && fresh(buffer)
    {
      state, buffer := new bv32[4], new bv8[64];
      new;
      Init();
    }

    /** MD4Init. */
    method Init()
      requires state.Length == 4 && buffer.Length == 64
      modifies this, state
      ensures Valid() && message == []
    {
      hide Holds, Compress;
      low, high := 0, 0;
      state[0] := 0x67452301;
      state[1] := 0xefcdab89;
      state[2] := 0x98badcfe;
      state[3] := 0x10325476;
      message := [];
      assert state[..] == IV;
      HoldsNothing(Compress, IV, buffer[..]);
    }

    method Count(length: nat)
      requires length < TWO32 && Counted(|message|)
      modifies `low, `high
      ensures Counted(|message| + length)
    {
      BitsGrow(low, high, |message|, length);
      var bits := 8 * length % TWO32;
      low := (low + bits) % TWO32;
      if low < bits {
        high := (high + 1) % TWO32;
      }
      high := (high + length / 0x2000_0000) % TWO32;
    }

    /** MD4_memcpy. */
    method Memcpy(at: nat, data: seq<bv8>)
      requires at + |data| <= buffer.Length
      modifies buffer
      ensures buffer[..] == old(buffer[..at]) + data + old(buffer[at + |data|..])
    {
      for i := 0 to |data|
        invariant forall k :: 0 <= k < buffer.Length ==>
          buffer[k] == if at <= k < at + i then data[k - at] else old(buffer[k])
      {
        buffer[at + i] := data[i];
      }
    }

    method Keep(index: nat, data: seq<bv8>)
      requires Held() && index == |message| % 64 && index + |data| < 64
      modifies `message, buffer
      ensures Held() && message == old(message) + data
    {
      hide Holds, Compress;
      HoldsMore(Compress, IV, message, state[..], buffer[..], data);
      Memcpy(index, data);
      message := message + data;
    }

    method Fill(index: nat, data: seq<bv8>)
      requires Held() && index == |message| % 64 && index + |data| == 64
      modifies `message, state, buffer
      ensures Held() && message == old(message) + data && |message| % 64 == 0
    {
      hide Holds, Compress;
      ghost var before: Block := buffer[..];
      Memcpy(index, data);
      assert buffer[..] == before[..index] + data;
      HoldsFull(Compress, IV, message, state[..], before, data, buffer[..]);
      TailSize(message, data);
      Transform(state, buffer);
      message := message + data;
    }

    /** A block of the input itself goes into the state; the buffer is left alone. */
    method Through(data: seq<bv8>)
      requires Held() && |message| % 64 == 0 && |data| == 64
      modifies `message, state
      ensures Held() && message == old(message) + data && |message| % 64 == 0
    {
      hide Holds, Compress;
      var block := new bv8[64](i requires 0 <= i < 64 => data[i]);
      assert block[..] == buffer[..0] + data;
      HoldsFull(Compress, IV, message, state[..], buffer[..], data, buffer[..]);
      TailSize(message, data);
      Transform(state, block);
      message := message + data;
    }

    /** The loop over the full blocks of the input. */
    method Blocks(data: seq<bv8>, partLen: nat, ghost index: nat) returns (i: nat)
      requires Held() && |message| % 64 == 0 && index < 64 && partLen == 64 - index <= |data| < TWO32
      requires Bounded(index, |data|)
      modifies `message, state
      ensures Held() && |message| % 64 == 0
      ensures partLen <= i <= |data| < i + 64 && message == old(message) + data[partLen..i]
    {
      hide Holds, Compress, Bounded, Test;
      i := partLen;
      ghost var j := 0;
      BeforeEnd(index, |data|, j);
      while (i + 63) % TWO32 < |data|
        invariant Held() && |message| % 64 == 0
        invariant i == Position(index, j) <= |data|
        invariant (i + 63) % TWO32 < |data| <==> i + 64 <= |data|
        invariant message == old(message) + data[partLen..i]
        decreases |data| - i
      {
        Through(data[i..i + 64]);
        SliceGrows(data, partLen, i, i + 64);
        i := i + 64;
        j := j + 1;
        BeforeEnd(index, |data|, j);
      }
    }

    /** MD4Update. */
    method Update(data: seq<bv8>)
      requires Valid() && |data| < TWO32 && Bounded(|message| % 64, |data|)
      modifies this, state, buffer
      ensures Valid() && message == old(message) + data
    {
      hide Holds, Compress;
      ghost var m := message;
      BitIndex(low, high, |message|);
      var index := low / 8 % 64;
      Count(|data|);
      var partLen := 64 - index;
      var i := 0;
      if |data| >= partLen {
        Fill(index, data[..partLen]);
        i := Blocks(data, partLen, |m| % 64);
        assert m + data[..partLen] + data[partLen..i] == m + data[..i];
        index := 0;
      }
      Keep(index, data[i..]);
      assert m + data[..i] + data[i..] == m + data;
    }

    /** MD4Final; it also clears the context. */
    method Final(digest: array<bv8>)
      requires Valid() && digest.Length == 16 && digest != buffer
      modifies this, state, buffer, digest
      ensures digest[..] == Md4(old(message))
      ensures low == high == 0
    {
      hide Holds, Compress, Digest, LengthOctets, Padding, Encoded;
      ghost var m := message;
      BitIndex(low, high, |m|);
      ZerosNeeded(|m|);
      var bits := Bits();
      var index := low / 8 % 64;
      var padLen := if index < 56 then 56 - index else 120 - index;
      PaddingIs(m, padLen);
      Update([0x80] + Repeat(0, padLen - 1));
      Update(bits);
      assert message == Padded(m);
      HoldsPadded(Compress, IV, m, state[..], buffer[..]);
      Output(digest);
      low, high := 0, 0;
    }

    /** Encode, of the count. */
    method Bits() returns (bits: seq<bv8>)
      requires Counted(|message|)
      ensures bits == LengthOctets(8 * |message|)
    {
      hide OctetsOf, Word32;
      CountIsLength(low, high, |message|);
      bits := OctetsOf(Word32(low)) + OctetsOf(Word32(high));
    }

    /** Encode, of the state. */
    method Output(digest: array<bv8>)
      requires state.Length == 4 && digest.Length == 16
      modifies digest
      ensures digest[..] == Encoded(state[..])
    {
      hide OctetsOf, Encoded;
      var i, j := 0, 0;
      while j < 16
        invariant j == 4 * i && i <= 4
        invariant digest[..j] == Encoded(state[..])[..j]
      {
        var octets := OctetsOf(state[i]);
        digest[j], digest[j + 1], digest[j + 2], digest[j + 3] := octets[0], octets[1], octets[2], octets[3];
        EncodedAt(state[..], i);
        assert digest[..j + 4] == Encoded(state[..])[..j] + octets;
        i, j := i + 1, j + 4;
      }
    }
  }

  lemma PaddingIs(m: seq<bv8>, length: nat)
    requires length == ZeroCount(|m|) + 1
    ensures [0x80] + Repeat(0, length - 1) == Padding(m)
  {
  }

  lemma EncodedAt(words: Chain, i: nat)
    requires i < 4
    ensures Encoded(words)[4 * i..4 * i + 4] == OctetsOf(words[i])
  {
    hide OctetsOf;
    var e := Encoded(words);
    assert e[0..4] == OctetsOf(words[0]);
    assert e[4..8] == OctetsOf(words[1]);
    assert e[8..12] == OctetsOf(words[2]);
    assert e[12..16] == OctetsOf(words[3]);
    assert i in {0, 1, 2, 3};
  }

  /** Within the bound, the loop test says truly whether a whole block is left. */
  lemma BeforeEnd(index: nat, length: nat, j: nat)
    requires index < 64 && length < TWO32 && Bounded(index, length) && Position(index, j) <= length
    ensures (Position(index, j) + 63) % TWO32 < length <==> Position(index, j) + 64 <= length
  {
    var left := length - Position(index, j);
    assert (length - (64 - index)) % 64 == left % 64;
    assert left % 64 <= left;
  }

  lemma SliceGrows(data: seq<bv8>, a: nat, b: nat, c: nat)
    requires a <= b <= c <= |data|
    ensures data[a..c] == data[a..b] + data[b..c]
  {
  }

  /** One digest whatever way the message was cut into updates. */
  method HashInPieces(pieces: seq<seq<bv8>>, digest: array<bv8>)
    requires digest.Length == 16
    requires forall i :: 0 <= i < |pieces| ==>
      |pieces[i]| < TWO32 && Bounded(|Joined(pieces[..i])| % 64, |pieces[i]|)
    modifies digest
    ensures digest[..] == Md4(Joined(pieces))
  {
    hide Holds, Compress, Md4, Bounded;
    var ctx := new Context();
    for i := 0 to |pieces|
      invariant ctx.Valid() && ctx.message == Joined(pieces[..i])
      invariant fresh(ctx) && fresh(ctx.state) && fresh(ctx.buffer)
    {
      ctx.Update(pieces[i]);
      assert pieces[..i + 1][..i] == pieces[..i];
    }
    assert pieces[..|pieces|] == pieces;
    ctx.Final(digest);
  }
}
