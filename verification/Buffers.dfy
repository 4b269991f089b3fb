/** memmove, as the code uses it to close a gap within a buffer. */
module Buffers {
  import opened Octets

  function Moved(d: seq<u8>, to: nat, from: nat, count: nat): (r: seq<u8>)
    requires to <= from && from + count <= |d|
    ensures |r| == |d|
  {
    d[..to] + d[from..from + count] + d[to + count..]
  }

  /** Going upwards, no octet is overwritten before it has moved. */
  lemma MoveStep(d0: seq<u8>, d1: seq<u8>, to: nat, from: nat, i: nat)
    requires to <= from && from + i < |d0| && d1 == Moved(d0, to, from, i)
    ensures d1[to + i := d1[from + i]] == Moved(d0, to, from, i + 1)
  {
    assert d1[from + i] == d0[from + i];
  }

  lemma NothingMoved(d: seq<u8>, to: nat, from: nat)
    requires to <= from <= |d|
    ensures Moved(d, to, from, 0) == d
  {
  }

  /** Downwards, over an overlap if there is one. */
  method Memmove(buf: array<u8>, to: nat, from: nat, count: nat)
    requires to <= from && from + count <= buf.Length
    modifies buf
    ensures buf[..] == Moved(old(buf[..]), to, from, count)
  {
    hide Moved;
    ghost var d0 := buf[..];
    NothingMoved(d0, to, from);
    for i := 0 to count
      invariant buf[..] == Moved(d0, to, from, i)
    {
      ghost var d1 := buf[..];
      buf[to + i] := buf[from + i];
      assert buf[..] == d1[to + i := d1[from + i]];
      MoveStep(d0, d1, to, from, i);
    }
  }
}
