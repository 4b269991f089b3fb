/** What MD4 and MD5 share: sections 3.1 to 3.3 of RFC 1320 and RFC 1321, and the shape of their step lists. */
module Hashing {
  import opened Sequences

  type Chain = s: seq<bv32> | |s| == 4 witness [0, 0, 0, 0]
  type Words = s: seq<bv32> | |s| == 16 witness seq(16, _ => 0)
  type Block = s: seq<bv8> | |s| == 64 witness seq(64, _ => 0)
  const IV: Chain := [0x67452301, 0xefcdab89, 0x98badcfe, 0x10325476]

  type Compression = (Chain, Block) -> Chain

  // ----- Words and octets, low-order octet first -----

  function WordOf(a: bv8, b: bv8, c: bv8, d: bv8): bv32 {
    (a as bv32) | ((b as bv32) << 8) | ((c as bv32) << 16) | ((d as bv32) << 24)
  }

  function OctetsOf(w: bv32): (r: seq<bv8>)
    ensures |r| == 4
  {
    [(w & 0xff) as bv8, ((w >> 8) & 0xff) as bv8, ((w >> 16) & 0xff) as bv8, ((w >> 24) & 0xff) as bv8]
  }

  function Decoded(block: Block): Words {
    seq(16, i requires 0 <= i < 16 => WordOf(block[4 * i], block[4 * i + 1], block[4 * i + 2], block[4 * i + 3]))
  }

  function Encoded(words: Chain): (r: seq<bv8>)
    ensures |r| == 16
  {
    OctetsOf(words[0]) + OctetsOf(words[1]) + OctetsOf(words[2]) + OctetsOf(words[3])
  }

  // ----- Padding, sections 3.1 and 3.2 -----

  const TWO32 := 0x1_0000_0000
  const TWO64 := 0x1_0000_0000_0000_0000

  function Word32(n: nat): bv32
    requires n < TWO32
  {
    n as bv32
  }

  /** The number modulo 2^64 as two words, the low-order one first. */
  function LengthOctets(n: nat): (r: seq<bv8>)
    ensures |r| == 8
  {
    OctetsOf(Word32(n % TWO32)) + OctetsOf(Word32(n / TWO32 % TWO32))
  }

  /** How many zeros take a message with its one bit to 56 octets modulo 64. */
  function ZeroCount(length: nat): nat {
    (55 - length) % 64
  }

  function Padding(m: seq<bv8>): seq<bv8> {
    [0x80] + Repeat(0, ZeroCount(|m|))
  }

  lemma PaddedSize(n: nat)
    ensures (n + 1 + ZeroCount(n) + 8) % 64 == 0
  {
    ZerosNeeded(n);
    assert n == 64 * (n / 64) + n % 64;
  }

  lemma ZerosNeeded(n: nat)
    ensures ZeroCount(n) == if n % 64 < 56 then 55 - n % 64 else 119 - n % 64
  {
  }

  function Padded(m: seq<bv8>): (r: seq<bv8>)
    ensures |r| % 64 == 0
  {
    PaddedSize(|m|);
    m + Padding(m) + LengthOctets(8 * |m|)
  }

  // ----- The chain over the blocks of a message -----

  function Chained(f: Compression, iv: Chain, m: seq<bv8>, blocks: nat): Chain
    requires 64 * blocks <= |m|
  {
    if blocks == 0 then iv else f(Chained(f, iv, m, blocks - 1), m[64 * (blocks - 1)..64 * blocks])
  }

  function Digest(f: Compression, iv: Chain, m: seq<bv8>): (r: seq<bv8>)
    ensures |r| == 16
  {
    Encoded(Chained(f, iv, Padded(m), |Padded(m)| / 64))
  }

  /** The part of a message that has not filled a block yet. */
  function Tail(m: seq<bv8>): (r: seq<bv8>)
    ensures |r| == |m| % 64
  {
    m[|m| - |m| % 64..]
  }

  /** Only the octets of the blocks themselves matter. */
  lemma {:induction false} ChainedOfPrefix(f: Compression, iv: Chain, m: seq<bv8>, n: seq<bv8>, blocks: nat)
    requires 64 * blocks <= |m| && 64 * blocks <= |n| && m[..64 * blocks] == n[..64 * blocks]
    ensures Chained(f, iv, m, blocks) == Chained(f, iv, n, blocks)
  {
    if blocks > 0 {
      assert m[..64 * (blocks - 1)] == m[..64 * blocks][..64 * (blocks - 1)];
      assert n[..64 * (blocks - 1)] == n[..64 * blocks][..64 * (blocks - 1)];
      ChainedOfPrefix(f, iv, m, n, blocks - 1);
      assert m[64 * (blocks - 1)..64 * blocks] == m[..64 * blocks][64 * (blocks - 1)..];
      assert n[64 * (blocks - 1)..64 * blocks] == n[..64 * blocks][64 * (blocks - 1)..];
    }
  }

  lemma ChainedOfConcat(f: Compression, iv: Chain, m: seq<bv8>, n: seq<bv8>)
    ensures Chained(f, iv, m + n, |m| / 64) == Chained(f, iv, m, |m| / 64)
  {
    ChainedOfPrefix(f, iv, m, m + n, |m| / 64);
  }

  // ----- What a context holds part-way through a message -----

  /** The chain over the full blocks of m, and the octets after them at the front of the block buffer. */
  ghost predicate Holds(f: Compression, iv: Chain, m: seq<bv8>, chain: Chain, block: seq<bv8>) {
    && |block| == 64
    && chain == Chained(f, iv, m, |m| / 64)
    && block[..|m| % 64] == Tail(m)
  }

  lemma HoldsNothing(f: Compression, iv: Chain, block: Block)
    ensures Holds(f, iv, [], iv, block)
  {
  }

  /** Data that does not fill the block joins the octets there. */
  lemma HoldsMore(f: Compression, iv: Chain, m: seq<bv8>, chain: Chain, block: Block, data: seq<bv8>)
    requires Holds(f, iv, m, chain, block) && |m| % 64 + |data| < 64
    ensures Holds(f, iv, m + data, chain, block[..|m| % 64] + data + block[|m| % 64 + |data|..])
  {
    ChainedOfConcat(f, iv, m, data);
    BlocksStay(m, data);
  }

  lemma BlocksStay(m: seq<bv8>, data: seq<bv8>)
    requires |m| % 64 + |data| < 64
    ensures |m + data| / 64 == |m| / 64 && Tail(m + data) == Tail(m) + data
  {
  }

  /** Data that completes the block goes into the chain with it. */
  lemma HoldsFull(f: Compression, iv: Chain, m: seq<bv8>, chain: Chain, block: Block, data: seq<bv8>, after: Block)
    requires Holds(f, iv, m, chain, block) && |m| % 64 + |data| == 64
    ensures Holds(f, iv, m + data, f(chain, block[..|m| % 64] + data), after)
  {
    ChainedOfConcat(f, iv, m, data);
    BlockFills(m, data);
  }

  lemma BlockFills(m: seq<bv8>, data: seq<bv8>)
    requires |m| % 64 + |data| == 64
    ensures var n := |m| / 64;
      |m + data| == 64 * (n + 1) && (m + data)[64 * n..64 * (n + 1)] == Tail(m) + data && Tail(m + data) == []
  {
  }

  lemma TailSize(m: seq<bv8>, data: seq<bv8>)
    requires (|m| % 64 + |data|) % 64 == 0
    ensures |m + data| % 64 == 0
  {
  }

  /** Once all of the padded message is in, the chain gives the digest. */
  lemma HoldsPadded(f: Compression, iv: Chain, m: seq<bv8>, chain: Chain, block: Block)
    requires Holds(f, iv, Padded(m), chain, block)
    ensures Encoded(chain) == Digest(f, iv, m)
  {
  }

  lemma DivMod(n: nat, d: nat, q: nat, r: nat)
    requires d > 0 && n == d * q + r && r < d
    ensures n / d == q && n % d == r
  {
    Quotient(d, n / d, n % d, q, r);
  }

  lemma Quotient(d: nat, q: nat, r: nat, q1: nat, r1: nat)
    requires d * q + r == d * q1 + r1 && r < d && r1 < d
    ensures q == q1 && r == r1
  {
    if q < q1 {
      Product(d, q, q1);
    } else if q1 < q {
      Product(d, q1, q);
    }
  }

  lemma Product(d: nat, small: nat, large: nat)
    requires small < large
    ensures d * small + d <= d * large
  {
    assert d * large == d * (large - 1) + d;
    if small + 1 < large {
      Product(d, small, large - 1);
    }
  }

  function Joined(pieces: seq<seq<bv8>>): seq<bv8> {
    if pieces == [] then [] else Joined(pieces[..|pieces| - 1]) + pieces[|pieces| - 1]
  }

  // ----- Step lists, section 3.4 -----

  /** The new value of the first register, given the words, the number of the step and the four registers. */
  type Step = (Words, nat, Chain) -> bv32

  /** The registers after so many steps; at each the newest value moves in and the registers rotate. */
  function Run(step: Step, x: Words, st: Chain, i: nat): Chain {
    if i == 0 then st else
      var r := Run(step, x, st, i - 1);
      [r[3], step(x, i - 1, r), r[1], r[2]]
  }

  /** Four steps bring every register back to its own place. */
  lemma FourSteps(step: Step, x: Words, st: Chain, i: nat, a: bv32, b: bv32, c: bv32, d: bv32)
    returns (a1: bv32, b1: bv32, c1: bv32, d1: bv32)
    requires Run(step, x, st, i) == [a, b, c, d]
    ensures a1 == step(x, i, [a, b, c, d]) && d1 == step(x, i + 1, [d, a1, b, c])
    ensures c1 == step(x, i + 2, [c, d1, a1, b]) && b1 == step(x, i + 3, [b, c1, d1, a1])
    ensures Run(step, x, st, i + 4) == [a1, b1, c1, d1]
  {
    a1 := step(x, i, [a, b, c, d]);
    assert Run(step, x, st, i + 1) == [d, a1, b, c];
    d1 := step(x, i + 1, [d, a1, b, c]);
    assert Run(step, x, st, i + 2) == [c, d1, a1, b];
    c1 := step(x, i + 2, [c, d1, a1, b]);
    assert Run(step, x, st, i + 3) == [b, c1, d1, a1];
    b1 := step(x, i + 3, [b, c1, d1, a1]);
  }

  /** Addition modulo 2^32. A call, so that the solver rewrites sums as wholes. */
  function Plus(x: bv32, y: bv32): bv32 {
    x + y
  }

  lemma PlusIsAssociative(x: bv32, y: bv32, z: bv32)
    ensures Plus(x, Plus(y, z)) == Plus(Plus(x, y), z)
  {
    calc {
      Plus(x, Plus(y, z));
      Plus(x, y + z);
      x + (y + z);
      (x + y) + z;
      Plus(x + y, z);
      Plus(Plus(x, y), z);
    }
  }

  lemma PlusCommutes(x: bv32, y: bv32)
    ensures Plus(x, y) == Plus(y, x)
  {
  }

  function Added(s: Chain, t: Chain): Chain {
    [Plus(s[0], t[0]), Plus(s[1], t[1]), Plus(s[2], t[2]), Plus(s[3], t[3])]
  }

  /** A block in: the message words run through the steps, and the chain is added back. */
  function Compressed(step: Step, steps: nat, s: Chain, block: Block): Chain {
    Added(s, Run(step, Decoded(block), s, steps))
  }

  function RotateLeft(x: bv32, n: bv6): bv32
    requires n <= 32
  {
    (x << n) | (x >> (32 - n))
  }

  function Bit(x: bv32, k: bv6): bv32
    requires k < 32
  {
    (x >> k) & 1
  }

  /** Bit k of the word is bit k + n, around the word, of the rotated one. */
  lemma RotatedBits(x: bv32, n: bv6, k: bv6)
    requires n < 32 && k < 32
    ensures Bit(RotateLeft(x, n), if k + n < 32 then k + n else k + n - 32) == Bit(x, k)
  {
    if k + n < 32 {
      BitMovesUp(x, n, k);
    } else {
      BitMovesAround(x, n, k);
    }
  }

  function Up(x: bv32, n: bv6): bv32
    requires n < 32
  {
    x << n
  }

  function Down(x: bv32, n: bv6): bv32
    requires n < 32
  {
    x >> (32 - n)
  }

  lemma BitMovesUp(x: bv32, n: bv6, k: bv6)
    requires n < 32 && k < 32 && k + n < 32
    ensures Bit(RotateLeft(x, n), k + n) == Bit(x, k)
  {
    hide Bit, Up, Down, RotateLeft;
    Halves(x, n);
    MovedUp(x, n, k);
    BitOfEither(Up(x, n), Down(x, n), k + n);
  }

  lemma BitMovesAround(x: bv32, n: bv6, k: bv6)
    requires n < 32 && k < 32 && k + n >= 32
    ensures Bit(RotateLeft(x, n), k + n - 32) == Bit(x, k)
  {
    hide Bit, Up, Down, RotateLeft;
    Halves(x, n);
    MovedAround(x, n, k);
    BitOfEither(Up(x, n), Down(x, n), k + n - 32);
  }

  lemma Halves(x: bv32, n: bv6)
    requires n < 32
    ensures RotateLeft(x, n) == Up(x, n) | Down(x, n)
  {
  }

  lemma MovedUp(x: bv32, n: bv6, k: bv6)
    requires n < 32 && k < 32 && k + n < 32
    ensures Bit(Up(x, n), k + n) == Bit(x, k) && Bit(Down(x, n), k + n) == 0
  {
  }

  lemma MovedAround(x: bv32, n: bv6, k: bv6)
    requires n < 32 && k < 32 && k + n >= 32
    ensures Bit(Down(x, n), k + n - 32) == Bit(x, k) && Bit(Up(x, n), k + n - 32) == 0
  {
  }

  lemma BitOfEither(x: bv32, y: bv32, k: bv6)
    requires k < 32
    ensures Bit(y, k) == 0 ==> Bit(x | y, k) == Bit(x, k)
    ensures Bit(x, k) == 0 ==> Bit(x | y, k) == Bit(y, k)
  {
  }
}
