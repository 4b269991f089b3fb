/** The in-place reassembly of DCERPC response fragments, dce_unfragment_ioctl of lib/dcerpc.c. */
module Unfragment {
  import opened Octets
  import opened Wrappers
  import opened Buffers

  const HEADER := 16
  const RESPONSE_HEADER := 24
  const PTYPE_RESPONSE: u8 := 2

  // ----- Header fields -----

  predicate IsLast(b: seq<u8>)
    requires |b| >= HEADER
  {
    b[3] / 2 % 2 == 1
  }

  /** frag_length, in the byte order of the PDU the reply belongs to. */
  function FragLength(little: bool, b: seq<u8>): nat
    requires |b| >= HEADER
  {
    Loaded(little, b[8..10])
  }

  predicate IsResponse(b: seq<u8>)
    requires |b| >= HEADER
  {
    b[0] == 5 && b[1] == 0 && b[2] == PTYPE_RESPONSE
  }

  // ----- What a run of fragments means -----

  /** A fragment with its two headers whose length field is its size. */
  ghost predicate Fragment(little: bool, f: seq<u8>) {
    |f| >= RESPONSE_HEADER && FragLength(little, f) == |f|
  }

  /** Every length field is at least the two headers and stays within the buffer. */
  ghost predicate Walkable(little: bool, b: seq<u8>)
    decreases |b|
  {
    |b| >= RESPONSE_HEADER ==>
      var n := FragLength(little, b);
      RESPONSE_HEADER <= n <= |b| && (IsLast(b) || Walkable(little, b[n..]))
  }

  /** The stubs up to the last fragment, or nothing if the octets run out before it. */
  ghost function Stubs(little: bool, b: seq<u8>): Option<seq<u8>>
    requires Walkable(little, b)
    decreases |b|
  {
    if |b| < RESPONSE_HEADER then None
    else
      var n := FragLength(little, b);
      var stub := b[RESPONSE_HEADER..n];
      if IsLast(b) then Some(stub)
      else
        match Stubs(little, b[n..])
        case None => None
        case Some(rest) => Some(stub + rest)
  }

  function Joined(fs: seq<seq<u8>>): seq<u8> {
    if fs == [] then [] else fs[0] + Joined(fs[1..])
  }

  function StubsOf(fs: seq<seq<u8>>): seq<u8>
    requires forall i :: 0 <= i < |fs| ==> |fs[i]| >= RESPONSE_HEADER
  {
    if fs == [] then [] else fs[0][RESPONSE_HEADER..] + StubsOf(fs[1..])
  }

  /** The last flag is on the last fragment and on no other. */
  ghost predicate WellFormedRun(little: bool, fs: seq<seq<u8>>) {
    && fs != []
    && (forall i :: 0 <= i < |fs| ==> Fragment(little, fs[i]))
    && forall i :: 0 <= i < |fs| ==> (IsLast(fs[i]) <==> i == |fs| - 1)
  }

  /** Walking a well-formed run finds its stubs, whatever follows it in the buffer. */
  lemma {:induction false} RunHasStubs(little: bool, fs: seq<seq<u8>>, junk: seq<u8>)
    requires WellFormedRun(little, fs)
    ensures Walkable(little, Joined(fs) + junk)
    ensures Stubs(little, Joined(fs) + junk) == Some(StubsOf(fs))
  {
    hide Loaded;
    var f, b := fs[0], Joined(fs) + junk;
    assert b == f + (Joined(fs[1..]) + junk);
    assert b[8..10] == f[8..10] && b[3] == f[3];
    assert b[RESPONSE_HEADER..|f|] == f[RESPONSE_HEADER..];
    assert b[|f|..] == Joined(fs[1..]) + junk;
    if |fs| > 1 {
      assert forall i :: 0 <= i < |fs[1..]| ==> fs[1..][i] == fs[i + 1];
      RunHasStubs(little, fs[1..], junk);
    } else {
      assert f[RESPONSE_HEADER..] + StubsOf(fs[1..]) == f[RESPONSE_HEADER..];
    }
  }

  /** struct smb2_iovec. */
  class Iovec {
    const buf: array<u8>
    var len: nat

    constructor (octets: array<u8>, length: nat)
      ensures buf == octets && len == length
    {
      buf, len := octets, length;
    }

    /** dce_unfragment_ioctl. */
    method Unfragment(little: bool)
      requires len <= buf.Length
      requires len >= HEADER && IsResponse(buf[..len]) && !IsLast(buf[..len]) ==>
        var first := FragLength(little, buf[..len]);
        RESPONSE_HEADER <= first <= len && Walkable(little, buf[first..len])
      modifies this, buf
      ensures old(len) < HEADER || !IsResponse(old(buf[..len])) || IsLast(old(buf[..len])) ==>
        len == old(len) && buf[..] == old(buf[..])
      ensures old(len) >= HEADER && IsResponse(old(buf[..len])) && !IsLast(old(buf[..len])) ==>
        var first := FragLength(little, old(buf[..len]));
        && buf[..first] == old(buf[..first])
        && (match Stubs(little, old(buf[first..len]))
            case Some(stubs) => len == first + |stubs| <= buf.Length && buf[..len] == old(buf[..first]) + stubs
            case None => len == old(len))
    {
      hide IsResponse, IsLast, FragLength, Stubs, Walkable, Progress;
      if len < HEADER || !IsResponse(buf[..len]) || IsLast(buf[..len]) {
        return;
      }
      var first := FragLength(little, buf[..len]);
      assert buf[..len][first..] == buf[first..len];
      var complete, total := Gather(little, first);
      if complete {
        len := total;
      }
    }

    /** The loop over the later fragments. */
    method Gather(little: bool, first: nat) returns (complete: bool, unfragmentLen: nat)
      requires RESPONSE_HEADER <= first <= len <= buf.Length && Walkable(little, buf[first..len])
      modifies buf
      ensures buf[..first] == old(buf[..first])
      ensures complete <==> Stubs(little, old(buf[first..len])).Some?
      ensures complete ==> var stubs := Stubs(little, old(buf[first..len])).value;
        unfragmentLen == first + |stubs| <= buf.Length && buf[..unfragmentLen] == old(buf[..first]) + stubs
    {
      hide IsLast, FragLength, Stubs, Walkable, Progress, Laid, Moved;
      ghost var front, run := buf[..first], buf[first..len];
      var offset := first;
      unfragmentLen := first;
      ProgressStarts(little, run);
      LaidAtFirst(buf[..], len, first);
      var last := false;
      ghost var stubs: seq<u8> := [];
      while !last
        invariant offset <= len && first <= offset
        invariant Laid(buf[..], len, front, stubs, run, unfragmentLen, offset)
        invariant Progress(little, run, stubs, last, offset - first)
        decreases !last, len - offset
      {
        ProgressGoesOn(little, run, stubs, offset - first);
        LaidMeans(buf[..], len, front, stubs, run, unfragmentLen, offset);
        if len - offset < RESPONSE_HEADER {
          return false, unfragmentLen;
        }
        ghost var before, placed, from := buf[..], unfragmentLen, offset;
        ghost var rest := run[offset - first..];
        ghost var n := FragLength(little, rest);
        last, offset, unfragmentLen := Next(little, offset, unfragmentLen);
        LaidNext(before, buf[..], len, front, stubs, run, placed, from, n);
        stubs := stubs + rest[RESPONSE_HEADER..n];
      }
      LaidMeans(buf[..], len, front, stubs, run, unfragmentLen, offset);
      ProgressEnds(little, run, stubs, offset - first);
      complete := true;
    }

    /** One turn of the loop: the next stub moves down to the end of those before it. */
    method Next(little: bool, offset: nat, unfragmentLen: nat) returns (last: bool, offset1: nat, unfragmentLen1: nat)
      requires RESPONSE_HEADER <= unfragmentLen <= offset && offset + RESPONSE_HEADER <= len <= buf.Length
      requires RESPONSE_HEADER <= FragLength(little, buf[offset..len]) <= len - offset
      modifies buf
      ensures last == IsLast(old(buf[offset..len]))
      ensures var n := FragLength(little, old(buf[offset..len]));
        && offset1 == offset + n && unfragmentLen1 == unfragmentLen + n - RESPONSE_HEADER
        && buf[..] == Moved(old(buf[..]), unfragmentLen, offset + RESPONSE_HEADER, n - RESPONSE_HEADER)
    {
      hide IsLast, FragLength;
      var header := buf[offset..len];
      var n := FragLength(little, header);
      Memmove(buf, unfragmentLen, offset + RESPONSE_HEADER, n - RESPONSE_HEADER);
      return IsLast(header), offset + n, unfragmentLen + n - RESPONSE_HEADER;
    }
  }

  /** The buffer: the first fragment and the stubs so far, and from the offset on the run as it came. */
  ghost predicate Laid(d: seq<u8>, len: nat, front: seq<u8>, stubs: seq<u8>, run: seq<u8>, unfragmentLen: nat, offset: nat) {
    && |front| <= unfragmentLen <= offset <= len == |front| + |run| <= |d|
    && d[..unfragmentLen] == front + stubs
    && d[offset..len] == run[offset - |front|..]
  }

  lemma LaidAtFirst(d: seq<u8>, len: nat, first: nat)
    requires first <= len <= |d|
    ensures Laid(d, len, d[..first], [], d[first..len], first, first)
  {
  }

  lemma LaidMeans(d: seq<u8>, len: nat, front: seq<u8>, stubs: seq<u8>, run: seq<u8>, unfragmentLen: nat, offset: nat)
    requires Laid(d, len, front, stubs, run, unfragmentLen, offset)
    ensures |front| <= unfragmentLen <= offset <= len <= |d| && unfragmentLen == |front| + |stubs|
    ensures d[..|front|] == front && d[..unfragmentLen] == front + stubs && d[offset..len] == run[offset - |front|..]
  {
    assert d[..unfragmentLen][..|front|] == front;
  }

  /** Moving a stub down leaves the fragments not yet read as they were. */
  lemma LaidNext(d0: seq<u8>, d1: seq<u8>, len: nat, front: seq<u8>, stubs: seq<u8>, run: seq<u8>,
                 unfragmentLen: nat, offset: nat, n: nat)
    requires Laid(d0, len, front, stubs, run, unfragmentLen, offset) && RESPONSE_HEADER <= n && offset + n <= len
    requires d1 == Moved(d0, unfragmentLen, offset + RESPONSE_HEADER, n - RESPONSE_HEADER)
    ensures Laid(d1, len, front, stubs + run[offset - |front|..][RESPONSE_HEADER..n], run,
                 unfragmentLen + n - RESPONSE_HEADER, offset + n)
  {
    var rest := run[offset - |front|..];
    assert d0[offset + RESPONSE_HEADER..offset + n] == d0[offset..len][RESPONSE_HEADER..n];
    assert d1[..unfragmentLen + n - RESPONSE_HEADER] == front + stubs + rest[RESPONSE_HEADER..n];
    assert front + stubs + rest[RESPONSE_HEADER..n] == front + (stubs + rest[RESPONSE_HEADER..n]);
    assert d1[offset + n..len] == d0[offset + n..len] == d0[offset..len][n..];
  }

  /** The octets of the run up to at have given the stubs, and those that follow give the rest. */
  ghost predicate Progress(little: bool, run: seq<u8>, stubs: seq<u8>, last: bool, at: nat)
    requires Walkable(little, run)
  {
    && at <= |run|
    && if last then Stubs(little, run) == Some(stubs)
       else
         && Walkable(little, run[at..])
         && (match Stubs(little, run[at..])
             case None => Stubs(little, run) == None
             case Some(rest) => Stubs(little, run) == Some(stubs + rest))
  }

  lemma ProgressStarts(little: bool, run: seq<u8>)
    requires Walkable(little, run)
    ensures Progress(little, run, [], false, 0)
  {
    assert run[0..] == run;
    match Stubs(little, run)
    case None =>
    case Some(rest) => assert [] + rest == rest;
  }

  lemma ProgressEnds(little: bool, run: seq<u8>, stubs: seq<u8>, at: nat)
    requires Walkable(little, run) && Progress(little, run, stubs, true, at)
    ensures Stubs(little, run) == Some(stubs)
  {
  }

  lemma ProgressGoesOn(little: bool, run: seq<u8>, stubs: seq<u8>, at: nat)
    requires Walkable(little, run) && Progress(little, run, stubs, false, at)
    ensures |run| - at < RESPONSE_HEADER ==> Stubs(little, run) == None
    ensures |run| - at >= RESPONSE_HEADER ==>
      var b := run[at..];
      var n := FragLength(little, b);
      && RESPONSE_HEADER <= n <= |b|
      && Progress(little, run, stubs + b[RESPONSE_HEADER..n], IsLast(b), at + n)
  {
    hide FragLength, IsLast;
    var b := run[at..];
    if |b| >= RESPONSE_HEADER {
      var n := FragLength(little, b);
      assert b[n..] == run[at + n..];
      if !IsLast(b) && Stubs(little, b[n..]).Some? {
        var stub, rest := b[RESPONSE_HEADER..n], Stubs(little, b[n..]).value;
        assert stubs + (stub + rest) == stubs + stub + rest;
      }
    }
  }

  /** A first fragment and a well-formed run of others, with anything behind them, become the first fragment and the
      stubs of the others in order. */
  method Reassemble(little: bool, first: seq<u8>, others: seq<seq<u8>>, junk: seq<u8>) returns (iov: Iovec)
    requires Fragment(little, first) && IsResponse(first) && !IsLast(first) && WellFormedRun(little, others)
    ensures iov.len <= iov.buf.Length && iov.buf[..iov.len] == first + StubsOf(others)
  {
    hide IsResponse, FragLength, IsLast, Stubs, Walkable;
    var octets := first + (Joined(others) + junk);
    var buf := new u8[|octets|](i requires 0 <= i < |octets| => octets[i]);
    assert buf[..] == octets;
    RunHasStubs(little, others, junk);
    iov := new Iovec(buf, |octets|);
    assert octets[|first|..] == Joined(others) + junk;
    assert octets[..|first|] == first;
    SameHeader(little, first, octets);
    assert buf[..iov.len] == octets && buf[|first|..iov.len] == octets[|first|..];
    assert buf[..|first|] == first;
    iov.Unfragment(little);
  }

  lemma SameHeader(little: bool, f: seq<u8>, b: seq<u8>)
    requires HEADER <= |f| <= |b| && b[..|f|] == f
    ensures FragLength(little, b) == FragLength(little, f)
    ensures IsLast(b) == IsLast(f) && IsResponse(b) == IsResponse(f)
  {
    assert f[8..10] == b[8..10];
    assert f[0] == b[0] && f[1] == b[1] && f[2] == b[2] && f[3] == b[3];
  }

  /** A response fragment by its octets: version 5.0, the packet type, the flags, the data representation, the length of
      the fragment in either byte order, fourteen octets that the reassembly does not look at, and the stub. */
  lemma ResponseFragment(little: bool, flags: u8, drep: seq<u8>, other: seq<u8>, stub: seq<u8>)
    requires |drep| == 4 && |other| == 14 && 24 + |stub| < 0x1_0000
    ensures var n := 24 + |stub|;
      var size := if little then [n % 256, n / 256] else [n / 256, n % 256];
      var f := [5, 0, 2, flags] + drep + size + other + stub;
      && Fragment(little, f) && IsResponse(f) && f[RESPONSE_HEADER..] == stub && f[..RESPONSE_HEADER] + stub == f
      && (IsLast(f) <==> flags % 4 >= 2)
  {
    hide Loaded;
    var n := 24 + |stub|;
    var size: seq<u8> := if little then [n % 256, n / 256] else [n / 256, n % 256];
    var f: seq<u8> := [5, 0, 2, flags] + drep + size + other + stub;
    LoadedValue(size[0], size[1]);
    assert f[8..10] == size == [size[0], size[1]];
  }
}
