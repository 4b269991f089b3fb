/** The writer and reader of lib/asn1-ber.c on their buffers, proved against BerSpec. */
module Ber {
  import opened Octets
  import opened Wrappers
  import opened BerSpec
  import opened Buffers
  import opened Numbers
  import opened Sequences

  const E2BIG := -7
  const EINVAL := -22

  // ----- What a write does to a buffer -----

  function Put(d: seq<u8>, at: nat, s: seq<u8>): seq<u8>
    requires at + |s| <= |d|
  {
    d[..at] + s + d[at + |s|..]
  }

  /** s goes in at the head if there is room for all of it; otherwise what was there before stays. */
  ghost predicate Emission(d0: seq<u8>, h0: nat, s: seq<u8>, d1: seq<u8>, h1: nat, ok: bool) {
    && h0 <= h1 <= |d1| == |d0|
    && (ok <==> h0 + |s| <= |d0|)
    && if ok then h1 == h0 + |s| && d1 == Put(d0, h0, s) else d1[..h0] == d0[..h0]
  }

  lemma EmissionNothing(d: seq<u8>, h: nat)
    requires h <= |d|
    ensures Emission(d, h, [], d, h, true)
  {
  }

  lemma EmissionsJoin(d0: seq<u8>, h0: nat, s: seq<u8>, d1: seq<u8>, h1: nat, t: seq<u8>, d2: seq<u8>, h2: nat, ok: bool)
    requires Emission(d0, h0, s, d1, h1, true) && Emission(d1, h1, t, d2, h2, ok)
    ensures Emission(d0, h0, s + t, d2, h2, ok)
  {
    if ok {
      assert Put(d1, h1, t) == Put(d0, h0, s + t);
    } else {
      assert d2[..h0] == d2[..h1][..h0];
    }
  }

  lemma EmissionFails(d0: seq<u8>, h0: nat, s: seq<u8>, d1: seq<u8>, h1: nat, t: seq<u8>)
    requires Emission(d0, h0, s, d1, h1, false)
    ensures Emission(d0, h0, s + t, d1, h1, false)
  {
  }

  /** Exactly s was added, whatever lies after the new head. */
  ghost predicate Written(d0: seq<u8>, h0: nat, s: seq<u8>, d1: seq<u8>, h1: nat) {
    && h0 <= |d0| == |d1|
    && h1 == h0 + |s| <= |d1|
    && d1[..h1] == d0[..h0] + s
  }

  lemma WritesJoin(d0: seq<u8>, h0: nat, s: seq<u8>, d1: seq<u8>, h1: nat, t: seq<u8>, d2: seq<u8>, h2: nat)
    requires Written(d0, h0, s, d1, h1) && Written(d1, h1, t, d2, h2)
    ensures Written(d0, h0, s + t, d2, h2)
  {
  }

  /** The top one of count octets, which a shift brings down, comes first. */
  lemma {:induction false} TopOctet(n: nat, count: nat)
    requires count > 0
    ensures BigEndian(n, count) == [n / Pow256(count - 1) % 256] + BigEndian(n, count - 1)
  {
    if count > 1 {
      TopOctet(n / 256, count - 1);
      Shifts(n, Pow256(count - 2));
    }
  }

  // ----- The code of struct asn1ber_context -----

  class Context {
    const src: array<u8>
    var tail: nat
    const dst: array<u8>
    var head: nat
    var lastError: int

    constructor (source: array<u8>, target: array<u8>)
      ensures src == source && dst == target && tail == 0 && head == 0
    {
      src, tail, dst, head, lastError := source, 0, target, 0, 0;
    }

    /** asn1ber_out_byte. */
    method OutByte(b: u8) returns (ok: bool)
      requires head <= dst.Length
      modifies `head, dst
      ensures Emission(old(dst[..]), old(head), [b], dst[..], head, ok)
    {
      if head >= dst.Length {
        return false;
      }
      dst[head] := b;
      head := head + 1;
      return true;
    }

    /** The loops that write a number from its top octet down. */
    method OutNumber(n: nat, count: nat) returns (ok: bool)
      requires head <= dst.Length
      modifies `head, dst
      ensures Emission(old(dst[..]), old(head), BigEndian(n, count), dst[..], head, ok)
    {
      hide Emission, BigEndian;
      ghost var d0, h0 := dst[..], head;
      ghost var done: seq<u8> := [];
      EmissionNothing(d0, h0);
      var needed := count;
      while needed > 0
        invariant head <= dst.Length && Emission(d0, h0, done, dst[..], head, true)
        invariant done + BigEndian(n, needed) == BigEndian(n, count)
      {
        ghost var d1, h1 := dst[..], head;
        var b: u8 := n / Pow256(needed - 1) % 256;
        ok := OutByte(b);
        EmissionsJoin(d0, h0, done, d1, h1, [b], dst[..], head, ok);
        TopOctet(n, needed);
        assert done + ([b] + BigEndian(n, needed - 1)) == done + [b] + BigEndian(n, needed - 1);
        if !ok {
          EmissionFails(d0, h0, done + [b], dst[..], head, BigEndian(n, needed - 1));
          return;
        }
        EmissionBounds(d0, h0, done + [b], dst[..], head, ok);
        done := done + [b];
        needed := needed - 1;
      }
      NoOctets(n);
      assert done + [] == done;
      return true;
    }

    /** asn1ber_ber_from_length. */
    method FromLength(n: u32) returns (ok: bool, outLen: nat)
      requires head <= dst.Length
      modifies `head, dst
      ensures Emission(old(dst[..]), old(head), LengthOctets(n), dst[..], head, ok)
      ensures ok ==> outLen == |LengthOctets(n)|
    {
      hide Emission, BigEndian;
      outLen := 0;
      if n < 128 {
        ok := OutByte(n);
        outLen := 1;
        return;
      }
      ghost var d0, h0 := dst[..], head;
      var needed, rest := 0, n;
      while rest > 0
        invariant needed + OctetCount(rest) == OctetCount(n)
      {
        needed, rest := needed + 1, rest / 256;
      }
      OctetCountOfWord(n);
      ok := OutByte(128 + needed);
      if !ok {
        EmissionFails(d0, h0, [128 + needed], dst[..], head, BigEndian(n, needed));
        return;
      }
      EmissionBounds(d0, h0, [128 + needed], dst[..], head, ok);
      ghost var d1, h1 := dst[..], head;
      ok := OutNumber(n, needed);
      EmissionsJoin(d0, h0, [128 + needed], d1, h1, BigEndian(n, needed), dst[..], head, ok);
      outLen := 1 + needed;
    }

    /** asn1ber_ber_from_typelen. */
    method FromTypelen(tag: u8, n: u32) returns (ok: bool)
      requires head <= dst.Length
      modifies `head, dst
      ensures Emission(old(dst[..]), old(head), [tag] + LengthOctets(n), dst[..], head, ok)
    {
      hide Emission, LengthOctets;
      ghost var d0, h0 := dst[..], head;
      ok := OutByte(tag);
      if !ok {
        EmissionFails(d0, h0, [tag], dst[..], head, LengthOctets(n));
        return;
      }
      EmissionBounds(d0, h0, [tag], dst[..], head, ok);
      ghost var d1, h1 := dst[..], head;
      var outLen;
      ok, outLen := FromLength(n);
      EmissionsJoin(d0, h0, [tag], d1, h1, LengthOctets(n), dst[..], head, ok);
    }

    method OutOctets(s: seq<u8>) returns (ok: bool)
      requires head <= dst.Length
      modifies `head, dst
      ensures Emission(old(dst[..]), old(head), s, dst[..], head, ok)
    {
      hide Emission;
      ghost var d0, h0 := dst[..], head;
      EmissionNothing(d0, h0);
      for i := 0 to |s|
        invariant head <= dst.Length && Emission(d0, h0, s[..i], dst[..], head, true)
      {
        ghost var d1, h1 := dst[..], head;
        ok := OutByte(s[i]);
        EmissionsJoin(d0, h0, s[..i], d1, h1, [s[i]], dst[..], head, ok);
        assert s[..i + 1] == s[..i] + [s[i]];
        if !ok {
          EmissionFails(d0, h0, s[..i + 1], dst[..], head, s[i + 1..]);
          assert s == s[..i + 1] + s[i + 1..];
          return;
        }
        EmissionBounds(d0, h0, s[..i + 1], dst[..], head, ok);
      }
      assert s[..|s|] == s;
      return true;
    }

    /** asn1ber_ber_from_bytes. */
    method FromBytes(tag: u8, s: seq<u8>) returns (ok: bool)
      requires head <= dst.Length && |s| < 0x1_0000_0000
      modifies `head, dst
      ensures Emission(old(dst[..]), old(head), [tag] + LengthOctets(|s|) + s, dst[..], head, ok)
    {
      hide Emission, LengthOctets;
      ghost var d0, h0 := dst[..], head;
      ok := FromTypelen(tag, |s|);
      if !ok {
        EmissionFails(d0, h0, [tag] + LengthOctets(|s|), dst[..], head, s);
        return;
      }
      EmissionBounds(d0, h0, [tag] + LengthOctets(|s|), dst[..], head, ok);
      ghost var d1, h1 := dst[..], head;
      ok := OutOctets(s);
      EmissionsJoin(d0, h0, [tag] + LengthOctets(|s|), d1, h1, s, dst[..], head, ok);
    }

    /** asn1ber_ber_from_uint32: a zero takes four octets, any other number as few as it needs. */
    method FromUint32(tag: u8, val: u32) returns (ok: bool)
      requires head <= dst.Length
      modifies `head, dst
      ensures Emission(old(dst[..]), old(head), UintOctets(tag, val), dst[..], head, ok)
    {
      hide Emission, LengthOctets, BigEndian;
      var needed := UintSize(val);
      ghost var d0, h0, header := dst[..], head, [tag] + LengthOctets(needed);
      ok := FromTypelen(tag, needed);
      if !ok {
        EmissionFails(d0, h0, header, dst[..], head, BigEndian(val, needed));
        return;
      }
      EmissionBounds(d0, h0, header, dst[..], head, ok);
      ghost var d1, h1 := dst[..], head;
      ok := OutNumber(val, needed);
      EmissionsJoin(d0, h0, header, d1, h1, BigEndian(val, needed), dst[..], head, ok);
    }

    /** The loop that shifts the number up until its top octet is in use. */
    method UintSize(val: u32) returns (needed: nat)
      ensures needed == UintCount(val)
    {
      needed := 4;
      var bytes := val;
      Pow256Values();
      assert Pow256(3) == 0x100_0000;
      while bytes > 0
        invariant 0 <= needed <= 4 && bytes == val * Pow256(4 - needed) && bytes < 0x1_0000_0000
        invariant if val > 0 then needed > 0 && bytes > 0 else needed == 4
        decreases needed
      {
        if bytes / 0x100_0000 != 0 {
          CountFromShift(val, needed);
          return;
        }
        assert val * (256 * Pow256(4 - needed)) == 256 * bytes;
        bytes := 256 * bytes % 0x1_0000_0000;
        needed := needed - 1;
      }
    }

    /** asn1ber_save_out_state. */
    method SaveOutState() returns (ok: bool, outPos: nat)
      ensures ok <==> head < dst.Length
      ensures ok ==> outPos == head
    {
      return head < dst.Length, head;
    }

    /** asn1ber_ber_reserve_length. */
    method ReserveLength(count: nat) returns (ok: bool)
      requires head <= dst.Length
      modifies `head, dst
      ensures Emission(old(dst[..]), old(head), Repeat<u8>(0, count), dst[..], head, ok)
    {
      hide Emission;
      ghost var d0, h0 := dst[..], head;
      ghost var done: seq<u8> := [];
      EmissionNothing(d0, h0);
      var len: nat := count;
      while len > 0
        invariant head <= dst.Length && Emission(d0, h0, done, dst[..], head, true)
        invariant len <= count && done == Repeat<u8>(0, count - len)
      {
        ghost var d1, h1 := dst[..], head;
        len := len - 1;
        ok := OutByte(0);
        EmissionsJoin(d0, h0, done, d1, h1, [0], dst[..], head, ok);
        done := done + [0];
        if !ok {
          EmissionFails(d0, h0, done, dst[..], head, Repeat<u8>(0, len));
          assert done + Repeat<u8>(0, len) == Repeat<u8>(0, count);
          return;
        }
        EmissionBounds(d0, h0, done, dst[..], head, ok);
      }
      return true;
    }

    /** asn1ber_annotate_length: the octets written since the mark get their length, and close up to it. With too small
        a reserve the length goes over the first of them, and the head ends up behind the last. */
    method AnnotateLength(outPos: nat, reserved: nat) returns (ok: bool)
      requires outPos + reserved <= head <= dst.Length < 0x8000_0000
      modifies `head, dst
      ensures ok <==> old(head) < dst.Length
      ensures !ok ==> head == old(head) && dst[..] == old(dst[..])
      ensures var n := old(head) - outPos - reserved;
        ok && |LengthOctets(n)| <= reserved ==>
          Written(old(dst[..]), outPos, LengthOctets(n) + old(dst[outPos + reserved..head]), dst[..], head)
      ensures var n := old(head) - outPos - reserved;
        ok && |LengthOctets(n)| > reserved ==>
          && head == outPos + |LengthOctets(n)| + n && outPos + |LengthOctets(n)| <= dst.Length
          && dst[..] == Put(old(dst[..]), outPos, LengthOctets(n))
    {
      hide LengthOctets, Emission, Written, Put, Moved;
      if head >= dst.Length {
        return false;
      }
      var made := head - outPos - reserved;
      head := outPos;
      var lenBytes;
      ghost var d0 := dst[..];
      LengthFits(made);
      ok, lenBytes := FromLength(made);
      ghost var d1 := dst[..];
      EmissionPuts(d0, outPos, LengthOctets(made), d1, head, ok);
      if !ok {
        assert false;
        return;
      }
      if reserved > lenBytes {
        Memmove(dst, head, outPos + reserved, made);
      }
      head := head + made;
      if lenBytes <= reserved {
        ClosesUp(d0, outPos, LengthOctets(made), reserved, made, d1, dst[..], head);
      }
    }

    /** A leaf by asn1ber_ber_from_bytes; a branch by typecode, mark, reserve, children and annotation. */
    method Write(t: Tree) returns (ok: bool)
      requires head <= dst.Length < 0x8000_0000 && WellFormed(t) && Roomy(t)
      modifies `head, dst
      ensures ok <==> old(head) + Need(t) <= dst.Length
      ensures if ok then Written(old(dst[..]), old(head), Encoding(t), dst[..], head)
              else old(head) <= head <= dst.Length && dst[..old(head)] == old(dst[..head])
      decreases t, 2
    {
      hide Emission, Written, LengthOctets;
      ghost var d0, h0 := dst[..], head;
      match t
      case Leaf(tag, contents) =>
        ok := FromBytes(tag, contents);
        EmissionKept(d0, h0, Encoding(t), dst[..], head, ok);
      case Branch(_, _, _) =>
        ok := WriteBranch(t);
    }

    method WriteBranch(t: Tree) returns (ok: bool)
      requires head <= dst.Length < 0x8000_0000 && WellFormed(t) && Roomy(t) && t.Branch?
      modifies `head, dst
      ensures ok <==> old(head) + Need(t) <= dst.Length
      ensures if ok then Written(old(dst[..]), old(head), Encoding(t), dst[..], head)
              else old(head) <= head <= dst.Length && dst[..old(head)] == old(dst[..head])
      decreases t, 1
    {
      hide Emission, Written, LengthOctets, Encoding;
      ghost var d0, h0 := dst[..], head;
      ok := OutByte(t.tag);
      EmissionKept(d0, h0, [t.tag], dst[..], head, ok);
      NeedIsMore(t);
      if !ok {
        return;
      }
      var saved, outPos := SaveOutState();
      if !saved {
        return false;
      }
      ghost var d1 := dst[..];
      ok := ReserveLength(t.reserve);
      EmissionKept(d1, outPos, Repeat<u8>(0, t.reserve), dst[..], head, ok);
      if !ok {
        assert dst[..h0] == dst[..outPos][..h0] == d1[..h0];
        return;
      }
      ghost var d2, h2 := dst[..], head;
      ok := WriteAll(t.children);
      if !ok {
        assert dst[..h0] == dst[..h2][..h0] == d2[..h0];
        assert d2[..h0] == d2[..outPos][..h0];
        return;
      }
      WrittenBack(d2, h2, Bodies(t.children), dst[..], head, outPos);
      ghost var d3 := dst[..];
      ok := AnnotateLength(outPos, t.reserve);
      if ok {
        BranchWritten(t, d0, h0, d1, d2, d3, outPos, dst[..], head);
      } else {
        assert dst[..h0] == d3[..outPos][..h0] == d2[..outPos][..h0] == d1[..outPos][..h0];
      }
    }

    method WriteAll(ts: seq<Tree>) returns (ok: bool)
      requires head <= dst.Length < 0x8000_0000 && forall i :: 0 <= i < |ts| ==> WellFormed(ts[i]) && Roomy(ts[i])
      modifies `head, dst
      ensures ok <==> old(head) + NeedAll(ts) <= dst.Length
      ensures if ok then Written(old(dst[..]), old(head), Bodies(ts), dst[..], head)
              else old(head) <= head <= dst.Length && dst[..old(head)] == old(dst[..head])
      decreases ts, 0
    {
      hide Written;
      ghost var d0, h0 := dst[..], head;
      WrittenNothing(d0, h0);
      if |ts| == 0 {
        return true;
      }
      ok := Write(ts[0]);
      if ok {
        ghost var d1, h1 := dst[..], head;
        WrittenBounds(d0, h0, Encoding(ts[0]), d1, h1);
        ok := WriteAll(ts[1..]);
        if ok {
          WritesJoin(d0, h0, Encoding(ts[0]), d1, h1, Bodies(ts[1..]), dst[..], head);
        } else {
          assert dst[..h0] == dst[..h1][..h0];
        }
      }
    }

    // ----- Reading -----

    /** asn1ber_next_byte. */
    method NextByte() returns (ok: bool, b: u8)
      requires tail <= src.Length
      modifies `tail
      ensures ok <==> old(tail) < src.Length
      ensures if ok then tail == old(tail) + 1 && b == src[old(tail)] else tail == old(tail)
    {
      if tail >= src.Length {
        return false, 0;
      }
      tail := tail + 1;
      return true, src[tail - 1];
    }

    /** The loops that read a number from its top octet down. */
    method NextNumber(count: nat) returns (ok: bool, val: nat)
      requires tail <= src.Length && count <= 4
      modifies `tail
      ensures ok <==> old(tail) + count <= src.Length
      ensures ok ==> tail == old(tail) + count && val == Value(src[old(tail)..tail])
      ensures old(tail) <= tail <= src.Length
    {
      val := 0;
      var left := count;
      Pow256Values();
      ghost var start := tail;
      while left > 0
        invariant tail == start + count - left <= src.Length && 0 <= left <= count
        invariant val == Value(src[start..tail]) < Pow256(count - left)
      {
        var b;
        ok, b := NextByte();
        if !ok {
          return;
        }
        assert src[start..tail][..tail - start - 1] == src[start..tail - 1];
        assert Pow256(count - left + 1) == 256 * Pow256(count - left);
        FitsWord(val, count - left);
        val := 256 * val % 0x1_0000_0000 + b;
        left := left - 1;
      }
      return true, val;
    }

    /** asn1ber_length_from_ber. */
    method LengthFromBer() returns (ok: bool, len: nat)
      requires tail <= src.Length
      modifies `tail, `lastError
      ensures old(tail) <= tail <= src.Length
      ensures ok <==> ReadLength(src[old(tail)..]).Some?
      ensures ok ==> ReadLength(src[old(tail)..]) == Some((len, tail - old(tail)))
    {
      ghost var start, s := tail, src[tail..];
      var b;
      ok, b := NextByte();
      len := 0;
      assert if ok then s[0] == b else s == [];
      if !ok {
        return;
      }
      if b < 128 {
        return true, b;
      }
      if b % 128 > 4 {
        lastError := E2BIG;
        return false, 0;
      }
      ok, len := NextNumber(b % 128);
      assert ok ==> s[1..1 + b % 128] == src[start + 1..tail];
    }

    /** ber_typecode_from_ber. */
    method TypecodeFromBer() returns (ok: bool, tag: nat)
      requires tail <= src.Length
      modifies `tail
      ensures old(tail) <= tail <= src.Length
      ensures ok <==> ReadTypecode(src[old(tail)..]).Some?
      ensures ok ==> ReadTypecode(src[old(tail)..]) == Some((tag, tail - old(tail)))
    {
      var b;
      ok, b := NextByte();
      tag := b;
      if !ok || b % 32 != 31 {
        return;
      }
      ok, b := NextByte();
      if ok && b >= 0x30 {
        b := b - 0x30;
      }
      tag := b;
    }

    /** ber_typelen_from_ber. */
    method TypelenFromBer() returns (ok: bool, tag: nat, len: nat)
      requires tail <= src.Length
      modifies `tail, `lastError
      ensures old(tail) <= tail <= src.Length
      ensures ok <==> ReadTypelen(src[old(tail)..]).Some?
      ensures ok ==> ReadTypelen(src[old(tail)..]) == Some((tag, len, tail - old(tail)))
    {
      hide ReadTypecode, ReadLength;
      ghost var start, s := tail, src[tail..];
      len := 0;
      ok, tag := TypecodeFromBer();
      if !ok {
        return;
      }
      assert s[tail - start..] == src[tail..];
      ok, len := LengthFromBer();
    }

    /** asn1ber_uint32_from_ber. */
    method Uint32FromBer() returns (ok: bool, val: nat)
      requires tail <= src.Length
      modifies `tail, `lastError
      ensures old(tail) <= tail <= src.Length
      ensures ok <==> ReadUint(src[old(tail)..]).Some?
      ensures ok ==> ReadUint(src[old(tail)..]) == Some((val, tail - old(tail)))
    {
      hide IsUintType;
      ghost var start, s := tail, src[tail..];
      val := 0;
      var b;
      ok, b := NextByte();
      if !ok {
        return;
      }
      assert s[0] == b;
      if !IsUintType(b) {
        lastError := EINVAL;
        return false, 0;
      }
      ok, b := NextByte();
      if !ok {
        return;
      }
      assert s[1] == b;
      if b > 4 || b == 0 {
        lastError := E2BIG;
        return false, 0;
      }
      ok, val := NextNumber(b);
      assert ok ==> s[2..2 + b] == src[start + 2..tail];
    }
  }

  // ----- Reading trees back -----

  /** The trees that fill the source from the tail to the end, header by header. */
  method ReadTrees(actx: Context, end: nat, ghost ts: seq<Tree>) returns (ok: bool, r: seq<Tree>)
    requires actx.tail <= end <= actx.src.Length && actx.src[actx.tail..end] == Bodies(ts)
    requires forall i :: 0 <= i < |ts| ==> WellFormed(ts[i])
    modifies actx`tail, actx`lastError
    ensures ok && r == AllBare(ts) && actx.tail == end
    decreases end - actx.tail
  {
    hide LengthOctets, ReadTypelen, WellFormed;
    if actx.tail == end {
      NoBodies(ts);
      return true, [];
    }
    ghost var start, t := actx.tail, ts[0];
    FirstHeader(ts, actx.src[..], start, end);
    var tag, len;
    ok, tag, len := actx.TypelenFromBer();
    ghost var after := actx.tail;
    var first;
    if tag / 32 % 2 == 1 {
      var children;
      ok, children := ReadTrees(actx, actx.tail + len, t.children);
      first := Branch(tag, 0, children);
    } else {
      var contents := NextOctets(actx, len);
      first := Leaf(tag, contents);
    }
    var rest;
    ok, rest := ReadTrees(actx, end, ts[1..]);
    r := [first] + rest;
  }

  method NextOctets(actx: Context, len: nat) returns (s: seq<u8>)
    requires actx.tail + len <= actx.src.Length
    modifies actx`tail
    ensures actx.tail == old(actx.tail) + len && s == actx.src[old(actx.tail)..actx.tail]
  {
    s := [];
    for i := 0 to len
      invariant actx.tail == old(actx.tail) + i && s == actx.src[old(actx.tail)..actx.tail]
    {
      var ok, b := actx.NextByte();
      s := s + [b];
    }
  }

  lemma NoBodies(ts: seq<Tree>)
    requires Bodies(ts) == [] && forall i :: 0 <= i < |ts| ==> WellFormed(ts[i])
    ensures ts == []
  {
  }

  /** The header at the front says the tag and the size of the first tree, and the others lie behind it. */
  lemma FirstHeader(ts: seq<Tree>, src: seq<u8>, start: nat, end: nat)
    requires start < end <= |src| && src[start..end] == Bodies(ts)
    requires forall i :: 0 <= i < |ts| ==> WellFormed(ts[i])
    ensures ts != [] && WellFormed(ts[0]) && |Body(ts[0])| < 0x8000_0000
    ensures var t := ts[0];
      var used := 1 + |LengthOctets(|Body(t)|)|;
      && ReadTypelen(src[start..]) == Some((t.tag, |Body(t)|, used))
      && start + used + |Body(t)| <= end
      && src[start + used..start + used + |Body(t)|] == Body(t)
      && src[start + used + |Body(t)|..end] == Bodies(ts[1..])
      && (t.tag / 32 % 2 == 1 <==> t.Branch?)
      && (t.Branch? ==> Body(t) == Bodies(t.children) && forall i :: 0 <= i < |t.children| ==> WellFormed(t.children[i]))
  {
    FirstBody(ts);
    hide LengthOctets, ReadTypelen, Bodies, Encoding, Body;
    var t, rest := ts[0], Bodies(ts[1..]);
    var body := Body(t);
    var header := [t.tag] + LengthOctets(|body|);
    Slices(src, start, end, header, body, rest);
    TypelenRoundTrip(t.tag, |body|, body + rest + src[end..]);
  }

  lemma FirstBody(ts: seq<Tree>)
    requires Bodies(ts) != [] && forall i :: 0 <= i < |ts| ==> WellFormed(ts[i])
    ensures ts != [] && |Body(ts[0])| < 0x8000_0000
    ensures Bodies(ts) == [ts[0].tag] + LengthOctets(|Body(ts[0])|) + Body(ts[0]) + Bodies(ts[1..])
    ensures ts[0].Branch? ==> Body(ts[0]) == Bodies(ts[0].children)
  {
    hide LengthOctets;
  }

  lemma Slices(src: seq<u8>, start: nat, end: nat, a: seq<u8>, b: seq<u8>, c: seq<u8>)
    requires start <= end <= |src| && src[start..end] == a + b + c
    ensures start + |a| + |b| + |c| == end
    ensures src[start + |a|..start + |a| + |b|] == b && src[start + |a| + |b|..end] == c
    ensures src[start..] == a + (b + c + src[end..])
  {
    assert src[start..] == src[start..end] + src[end..];
    assert src[start..end][|a|..|a| + |b|] == b;
    assert src[start..end][|a| + |b|..] == c;
  }

  /** A tree written into a buffer is read back from it. */
  method WriteThenRead(t: Tree, size: nat) returns (ok: bool, r: seq<Tree>)
    requires WellFormed(t) && Roomy(t) && size < 0x8000_0000
    ensures ok <==> Need(t) <= size
    ensures ok ==> r == [Bare(t)]
  {
    hide Encoding, WellFormed, Roomy;
    var buf := new u8[size];
    var nothing := new u8[0];
    var encoder := new Context(nothing, buf);
    ok := encoder.Write(t);
    r := [];
    if ok {
      OneTree(t);
      assert buf[..encoder.head] == buf[0..encoder.head] == Encoding(t);
      var decoder := new Context(buf, nothing);
      ok, r := ReadTrees(decoder, encoder.head, [t]);
    }
  }

  lemma OneTree(t: Tree)
    ensures Bodies([t]) == Encoding(t) && AllBare([t]) == [Bare(t)]
  {
    assert [t][1..] == [];
    assert AllBare([t][1..]) == [];
    assert AllBare([t]) == [Bare([t][0])] + AllBare([t][1..]);
    assert Bodies([t]) == Encoding([t][0]) + Bodies([t][1..]);
  }

  // ----- Facts about emissions -----

  lemma EmissionBounds(d0: seq<u8>, h0: nat, s: seq<u8>, d1: seq<u8>, h1: nat, ok: bool)
    requires Emission(d0, h0, s, d1, h1, ok)
    ensures h1 <= |d1|
  {
  }

  lemma EmissionPuts(d0: seq<u8>, h0: nat, s: seq<u8>, d1: seq<u8>, h1: nat, ok: bool)
    requires Emission(d0, h0, s, d1, h1, ok)
    ensures ok <==> h0 + |s| <= |d0|
    ensures ok ==> h1 == h0 + |s| && d1 == Put(d0, h0, s) && |d1| == |d0|
  {
  }

  lemma EmissionKept(d0: seq<u8>, h0: nat, s: seq<u8>, d1: seq<u8>, h1: nat, ok: bool)
    requires Emission(d0, h0, s, d1, h1, ok)
    ensures ok <==> h0 + |s| <= |d0|
    ensures h0 <= h1 <= |d1| == |d0| && d1[..h0] == d0[..h0]
    ensures ok ==> h1 == h0 + |s| && Written(d0, h0, s, d1, h1)
  {
  }

  lemma WrittenNothing(d: seq<u8>, h: nat)
    requires h <= |d|
    ensures Written(d, h, [], d, h)
  {
  }

  lemma WrittenBounds(d0: seq<u8>, h0: nat, s: seq<u8>, d1: seq<u8>, h1: nat)
    requires Written(d0, h0, s, d1, h1)
    ensures h1 == h0 + |s| <= |d1| && d1[..h0] == d0[..h0]
  {
  }

  /** The octets written lie between the old head and the new one, and a mark below them is undisturbed. */
  lemma WrittenBack(d0: seq<u8>, h0: nat, s: seq<u8>, d1: seq<u8>, h1: nat, mark: nat)
    requires Written(d0, h0, s, d1, h1) && mark <= h0
    ensures h1 == h0 + |s| <= |d1| && d1[h0..h1] == s && d1[..mark] == d0[..mark]
  {
    assert d1[..h1][h0..] == s;
    assert d1[..h1][..mark] == d0[..mark];
  }

  /** The octets of a length are no more than those it counts, or a single one. */
  lemma LengthFits(n: u32)
    ensures |LengthOctets(n)| <= if n < 128 then 1 else n
  {
  }

  lemma ClosesUp(d0: seq<u8>, outPos: nat, length: seq<u8>, reserved: nat, made: nat, d1: seq<u8>, d2: seq<u8>, head: nat)
    requires |length| <= reserved && outPos + reserved + made <= |d0| == |d1|
    requires d1 == Put(d0, outPos, length) && head == outPos + |length| + made
    requires d2 == if reserved > |length| then Moved(d1, outPos + |length|, outPos + reserved, made) else d1
    ensures Written(d0, outPos, length + d0[outPos + reserved..outPos + reserved + made], d2, head)
  {
  }

  lemma BranchWritten(t: Tree, d0: seq<u8>, h0: nat, d1: seq<u8>, d2: seq<u8>, d3: seq<u8>, outPos: nat, d4: seq<u8>, head: nat)
    requires t.Branch? && |Body(t)| < 0x1_0000_0000
    requires Written(d0, h0, [t.tag], d1, outPos)
    requires outPos <= |d2| == |d1| && d2[..outPos] == d1[..outPos]
    requires outPos <= |d3| == |d1| && d3[..outPos] == d2[..outPos]
    requires Written(d3, outPos, LengthOctets(|Body(t)|) + Body(t), d4, head)
    ensures Written(d0, h0, Encoding(t), d4, head)
  {
    hide LengthOctets;
    var rest := LengthOctets(|Body(t)|) + Body(t);
    assert Encoding(t) == [t.tag] + rest;
  }

  // ----- How much room a tree takes while it is written -----

  /** The reserves are large enough for the lengths that replace them. */
  ghost predicate Roomy(t: Tree) {
    t.Branch? ==>
      && |Body(t)| < 0x1_0000_0000 && |LengthOctets(|Body(t)|)| <= t.reserve
      && forall i :: 0 <= i < |t.children| ==> Roomy(t.children[i])
  }

  /** The annotation needs one octet more than it fills, and the children start after the whole reserve. */
  function Need(t: Tree): nat
    decreases t, 1
  {
    match t
    case Leaf(_, _) => |Encoding(t)|
    case Branch(_, reserve, children) => Max(2 + reserve + |Bodies(children)|, 1 + reserve + NeedAll(children))
  }

  function NeedAll(ts: seq<Tree>): nat
    decreases ts, 0
  {
    if ts == [] then 0 else Max(Need(ts[0]), |Encoding(ts[0])| + NeedAll(ts[1..]))
  }

  lemma NeedIsMore(t: Tree)
    requires t.Branch?
    ensures Need(t) >= 2 + t.reserve
  {
  }

  // ----- Unsigned numbers -----

  function UintCount(val: u32): (k: nat)
    ensures 1 <= k <= 4
  {
    OctetCountOfWord(val);
    if val == 0 then 4 else OctetCount(val)
  }

  function UintOctets(tag: u8, val: u32): seq<u8> {
    [tag] + LengthOctets(UintCount(val)) + BigEndian(val, UintCount(val))
  }

  /** The types that asn1ber_uint32_from_ber takes. */
  predicate IsUintType(tag: u8) {
    tag in {0x01, 0x40, 0x41, 0x42, 0x43, 0x45, 0x47, 0x0a}
  }

  function ReadUint(s: seq<u8>): Option<(nat, nat)> {
    if |s| < 2 || !IsUintType(s[0]) || s[1] == 0 || s[1] > 4 || 2 + s[1] > |s| then None
    else Some((Value(s[2..2 + s[1]]), 2 + s[1]))
  }

  /** Every 32-bit number comes back, zero included. */
  lemma UintRoundTrip(tag: u8, val: u32, rest: seq<u8>)
    requires IsUintType(tag)
    ensures ReadUint(UintOctets(tag, val) + rest) == Some((val, |UintOctets(tag, val)|))
  {
    hide IsUintType;
    var k := UintCount(val);
    ValueOfOctets(val, k);
    var s := UintOctets(tag, val) + rest;
    assert LengthOctets(k) == [k];
    assert s[2..2 + k] == BigEndian(val, k);
  }

  /** The shifted number fills the top octet just when the count is right. */
  lemma CountFromShift(val: u32, needed: nat)
    requires 1 <= needed <= 4 && 0x100_0000 <= val * Pow256(4 - needed) < 0x1_0000_0000
    ensures OctetCount(val) == needed && val > 0
  {
    Pow256Values();
    assert Pow256(3) == 0x100_0000;
    CountByRange(val);
    match needed
    case 1 =>
    case 2 =>
    case 3 =>
    case _ =>
  }

  lemma CountByRange(val: u32)
    requires val > 0
    ensures OctetCount(val) == if val < 0x100 then 1 else if val < 0x1_0000 then 2 else if val < 0x100_0000 then 3 else 4
  {
    var a := val / 256;
    var b := a / 256;
    var c := b / 256;
    assert OctetCount(val) == 1 + OctetCount(a);
    assert a > 0 ==> OctetCount(a) == 1 + OctetCount(b);
    assert b > 0 ==> OctetCount(b) == 1 + OctetCount(c);
    assert c > 0 ==> OctetCount(c) == 1 + OctetCount(c / 256);
  }

  lemma FitsWord(val: nat, count: nat)
    requires count < 4 && val < Pow256(count)
    ensures 256 * val < 0x1_0000_0000
  {
    Pow256Values();
    assert Pow256(3) == 0x100_0000;
    match count
    case 0 =>
    case 1 =>
    case 2 =>
    case _ =>
  }

  lemma NoOctets(n: nat)
    ensures BigEndian(n, 0) == []
  {
  }

  /** A zero in four octets, any other number in as many as it needs. */
  lemma UintByRange(tag: u8, val: u32)
    ensures UintOctets(tag, val) ==
      if val == 0 then [tag, 4, 0, 0, 0, 0]
      else if val < 0x100 then [tag, 1, val]
      else if val < 0x1_0000 then [tag, 2, val / 0x100, val % 0x100]
      else if val < 0x100_0000 then [tag, 3, val / 0x1_0000, val / 0x100 % 0x100, val % 0x100]
      else [tag, 4, val / 0x100_0000, val / 0x1_0000 % 0x100, val / 0x100 % 0x100, val % 0x100]
  {
    var a, b, c := val / 256, val / 256 / 256, val / 256 / 256 / 256;
    OctetsByRange(val);
    assert BigEndian(val, 1) == [val % 256];
    assert BigEndian(val, 2) == BigEndian(a, 1) + [val % 256];
    assert BigEndian(val, 3) == BigEndian(a, 2) + [val % 256] && BigEndian(a, 2) == BigEndian(b, 1) + [a % 256];
    assert BigEndian(val, 4) == BigEndian(a, 3) + [val % 256] && BigEndian(a, 3) == BigEndian(b, 2) + [a % 256]
      && BigEndian(b, 2) == BigEndian(c, 1) + [b % 256];
  }
}
