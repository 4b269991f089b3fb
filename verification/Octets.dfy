/** Octets and the fixed-width integers that are stored in them in either byte order. */
module Octets {
  import opened Sequences

  type u8 = x: int | 0 <= x < 0x100
  type u16 = x: int | 0 <= x < 0x1_0000
  type u32 = x: int | 0 <= x < 0x1_0000_0000
  type u64 = x: int | 0 <= x < 0x1_0000_0000_0000_0000

  function Pow256(n: nat): (p: nat)
    ensures p > 0
  {
    if n == 0 then 1 else 256 * Pow256(n - 1)
  }

  /** The n octets of x, least significant first. */
  function LittleEndian(n: nat, x: nat): (b: seq<u8>)
    ensures |b| == n
  {
    if n == 0 then [] else [x % 256] + LittleEndian(n - 1, x / 256)
  }

  function LittleEndianValue(b: seq<u8>): nat {
    if b == [] then 0 else b[0] + 256 * LittleEndianValue(b[1..])
  }

  /** The n octets of x, most significant first. */
  function BigEndian(x: nat, n: nat): (b: seq<u8>)
    ensures |b| == n
  {
    if n == 0 then [] else BigEndian(x / 256, n - 1) + [x % 256]
  }

  function Stored(little: bool, n: nat, x: nat): (b: seq<u8>)
    ensures |b| == n
  {
    if little then LittleEndian(n, x) else Reversed(LittleEndian(n, x))
  }

  function Loaded(little: bool, b: seq<u8>): nat {
    LittleEndianValue(if little then b else Reversed(b))
  }

  lemma {:induction false} LittleEndianRoundTrip(n: nat, x: nat)
    requires x < Pow256(n)
    ensures LittleEndianValue(LittleEndian(n, x)) == x
  {
    if n > 0 {
      LittleEndianRoundTrip(n - 1, x / 256);
      assert LittleEndian(n, x)[1..] == LittleEndian(n - 1, x / 256);
    }
  }

  lemma StoredRoundTrip(little: bool, n: nat, x: nat)
    requires x < Pow256(n)
    ensures Loaded(little, Stored(little, n, x)) == x
  {
    LittleEndianRoundTrip(n, x);
    assert Reversed(Reversed(LittleEndian(n, x))) == LittleEndian(n, x);
  }

  lemma Shifts(x: nat, p: nat)
    requires p > 0
    ensures x / 256 / p == x / (256 * p)
  {
    var q, r := x / 256 / p, x / 256 % p;
    assert x == 256 * (p * q + r) + x % 256;
    assert x == (256 * p) * q + (256 * r + x % 256);
    assert 256 * r + x % 256 < 256 * p;
    QuotientIs(x, 256 * p, q, 256 * r + x % 256);
  }

  lemma QuotientIs(n: nat, d: nat, q: nat, r: nat)
    requires d > 0 && n == d * q + r && r < d
    ensures n / d == q
  {
    var q1, r1 := n / d, n % d;
    assert d * (q1 - q) == r - r1;
    if q1 > q {
      MulAtLeast(d, q1 - q);
    } else if q > q1 {
      MulAtLeast(d, q - q1);
    }
  }

  lemma {:induction false} MulAtLeast(d: nat, k: nat)
    requires k > 0
    ensures d * k >= d
  {
    if k > 1 {
      assert d * k == d * (k - 1) + d;
      MulAtLeast(d, k - 1);
    }
  }

  /** Octet k is the one of weight 256^k. */
  lemma {:induction false} LittleEndianAt(n: nat, x: nat, k: nat)
    requires k < n
    ensures LittleEndian(n, x)[k] == x / Pow256(k) % 256
  {
    if k > 0 {
      LittleEndianAt(n - 1, x / 256, k - 1);
      Shifts(x, Pow256(k - 1));
    }
  }

  lemma {:induction false} BigEndianAt(x: nat, n: nat, k: nat)
    requires k < n
    ensures BigEndian(x, n)[k] == x / Pow256(n - 1 - k) % 256
  {
    if k < n - 1 {
      BigEndianAt(x / 256, n - 1, k);
      Shifts(x, Pow256(n - 2 - k));
    }
  }

  /** The octet of weight 256^k is k octets from the front, or from the back in the other byte order. */
  lemma StoredAt(little: bool, n: nat, x: nat, k: nat)
    requires k < n
    ensures Stored(little, n, x)[if little then k else n - 1 - k] == x / Pow256(k) % 256
  {
    hide LittleEndian, Pow256;
    LittleEndianAt(n, x, k);
    var b := LittleEndian(n, x);
    if !little {
      assert Reversed(b)[n - 1 - k] == b[k];
    }
  }

  lemma LoadedValue(a: u8, b: u8)
    ensures Loaded(true, [a, b]) == a + 256 * b && Loaded(false, [a, b]) == 256 * a + b
  {
    assert Reversed([a, b]) == [b, a];
    assert [a, b][1..] == [b] && [b, a][1..] == [a];
    assert LittleEndianValue([a]) == a + 256 * LittleEndianValue([a][1..]);
    assert LittleEndianValue([b]) == b + 256 * LittleEndianValue([b][1..]);
  }

  lemma Pow256Values()
    ensures Pow256(0) == 1 && Pow256(1) == 0x100 && Pow256(2) == 0x1_0000
    ensures Pow256(4) == 0x1_0000_0000 && Pow256(8) == 0x1_0000_0000_0000_0000
  {
    assert Pow256(4) == 256 * Pow256(3) && Pow256(3) == 256 * Pow256(2) && Pow256(2) == 256 * Pow256(1);
    assert Pow256(8) == 256 * Pow256(7) && Pow256(7) == 256 * Pow256(6) && Pow256(6) == 256 * Pow256(5) && Pow256(5) == 256 * Pow256(4);
  }
}
