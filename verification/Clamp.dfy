/** How lib/libsmb2.c cuts a read or write down to one request, and what a caller gets from repeating them. */
module Clamp {
  import opened Octets
  import opened Errors
  import opened Numbers

  const MAX_CREDITS := 1024
  const VERSION_0202 := 0x0202

  /** The unsigned expression (count - 1) / 65536 + 1. */
  function NeededCredits(count: u32): (n: nat)
    ensures 1 <= n <= 65536
  {
    (count - 1) % 0x1_0000_0000 / 65536 + 1
  }

  /** The most octets a request may ask for. */
  function Limit(dialect: nat, credits: int): int {
    if dialect > VERSION_0202 then 65536 * Min(MAX_CREDITS - 16, credits) else 65536
  }

  /** The arithmetic at the head of smb2_pread_async and smb2_pwrite_async. */
  method Length(requested: u32, maxSize: u32, dialect: nat, credits: int) returns (count: u32)
    requires -0x8000 <= credits < 0x8000_0000
    ensures credits > 0 ==> count == Sent(requested, maxSize, dialect, credits)
  {
    count := requested;
    if count > maxSize {
      count := maxSize;
    }
    var needed := NeededCredits(count);
    if dialect > VERSION_0202 {
      if needed > MAX_CREDITS - 16 {
        count := (MAX_CREDITS - 16) * 65536;
      }
      needed := NeededCredits(count);
      if needed > credits {
        count := credits * 65536 % 0x1_0000_0000;
      }
    } else {
      if count > 65536 {
        count := 65536;
      }
    }
  }

  /** The simple form the arithmetic comes to when every quantity is at least one. */
  function Clamped(requested: u32, maxSize: u32, dialect: nat, credits: int): int {
    Min(Min(requested, maxSize), Limit(dialect, credits))
  }

  /** At least one octet, no more than asked for or allowed, and charged within the credits. */
  lemma ClampedBounds(requested: u32, maxSize: u32, dialect: nat, credits: int)
    requires requested > 0 && maxSize > 0 && credits > 0
    ensures var n := Clamped(requested, maxSize, dialect, credits);
      && 1 <= n <= requested && n <= maxSize && n < 0x1_0000_0000
      && (dialect <= VERSION_0202 ==> n <= 65536 && NeededCredits(n) == 1)
      && (dialect > VERSION_0202 ==> NeededCredits(n) <= Min(credits, MAX_CREDITS - 16))
  {
    var n := Clamped(requested, maxSize, dialect, credits);
    assert 1 <= n < 0x1_0000_0000;
    assert (n - 1) % 0x1_0000_0000 == n - 1;
  }

  /** It is the largest number of octets that can be asked for: within the request and the server's limit, and charged
      with a credit for each 65536 begun, of which one stays below 1009 and within those at hand. */
  lemma ClampedIsLargest(requested: u32, maxSize: u32, dialect: nat, credits: int, n: nat)
    requires requested > 0 && maxSize > 0 && credits > 0
    ensures n <= Clamped(requested, maxSize, dialect, credits) <==>
      && n <= requested && n <= maxSize
      && if dialect > 0x0202 then (n + 65535) / 65536 <= Min(credits, 1008) else n <= 65536
  {
  }

  /** What the code sends in every case with credits to spend. */
  function Sent(requested: u32, maxSize: u32, dialect: nat, credits: int): int
    requires credits > 0
  {
    if Min(requested, maxSize) > 0 then Clamped(requested, maxSize, dialect, credits)
    else if dialect > VERSION_0202 then Limit(dialect, credits)
    else 0
  }

  /** A request of nothing wraps around, so the length stays within what the caller asked for exactly when the caller
      asks for something, something is allowed, or the dialect is the first. */
  lemma SentWithinRequest(requested: u32, maxSize: u32, dialect: nat, credits: int)
    requires credits > 0
    ensures Sent(requested, maxSize, dialect, credits) <= requested
      <==> (requested > 0 && maxSize > 0) || dialect <= VERSION_0202 || Limit(dialect, credits) <= requested
  {
  }

  /** An empty read on a 3.1.1 connection with one credit asks for 65536 octets. */
  method EmptyRead() returns (count: u32)
    ensures count == 65536
  {
    count := Length(0, 0x80_0000, 0x0311, 1);
  }

  // ----- Repeated reads and writes at the offset of the handle -----

  /** What changes between requests: sizes, credits, and how much of the request the server serves. */
  datatype Turn = Turn(count: u32, maxSize: u32, dialect: nat, credits: int, served: nat)

  predicate Usable(t: Turn) {
    t.count > 0 && t.maxSize > 0 && 0 < t.credits < 0x8000_0000 && t.served > 0
  }

  /** struct smb2fh. */
  class FileHandle {
    var offset: u64

    constructor ()
      ensures offset == 0
    {
      offset := 0;
    }

    /** read_cb and write_cb: the offset moves past the data on success, and stays at the end of the file. */
    method OnReply(status: int, at: u64, dataLength: nat)
      requires at + dataLength < 0x1_0000_0000_0000_0000
      modifies this
      ensures offset == if status == SUCCESS then at + dataLength else old(offset)
    {
      if status == SUCCESS {
        offset := at + dataLength;
      }
    }

    /** smb2_read_async and its reply from a server that holds the file: a slice of it, or its end. */
    method Read(file: seq<u8>, t: Turn) returns (data: seq<u8>)
      requires |file| < 0x8000_0000_0000_0000 && offset <= |file| && Usable(t)
      modifies this
      ensures old(offset) <= offset <= |file| && data == file[old(offset)..offset]
      ensures |data| <= t.count && |data| <= t.maxSize && (old(offset) < |file| ==> |data| > 0)
    {
      var count := Length(t.count, t.maxSize, t.dialect, t.credits);
      ClampedBounds(t.count, t.maxSize, t.dialect, t.credits);
      if offset == |file| {
        OnReply(END_OF_FILE, offset, 0);
        return [];
      }
      var n := Min(t.served, Min(count, |file| - offset));
      data := file[offset..offset + n];
      OnReply(SUCCESS, offset, n);
    }

    /** smb2_write_async and its reply, against a server that stores what it takes. */
    method Write(file: seq<u8>, buf: seq<u8>, t: Turn) returns (file1: seq<u8>, written: nat)
      requires |file| + |buf| < 0x8000_0000_0000_0000 && offset <= |file| && Usable(t) && t.count <= |buf|
      modifies this
      ensures 0 < written <= t.count && offset == old(offset) + written
      ensures file1 == Overwritten(file, old(offset), buf[..written])
    {
      var count := Length(t.count, t.maxSize, t.dialect, t.credits);
      ClampedBounds(t.count, t.maxSize, t.dialect, t.credits);
      written := Min(t.served, count);
      file1 := Overwritten(file, offset, buf[..written]);
      OnReply(SUCCESS, offset, written);
    }

    /** Whatever the sizes of the reads, they add up to the file as far as the offset. */
    method ReadSome(file: seq<u8>, turns: seq<Turn>) returns (data: seq<u8>)
      requires |file| < 0x8000_0000_0000_0000 && offset == 0
      requires forall i :: 0 <= i < |turns| ==> Usable(turns[i])
      modifies this
      ensures offset <= |file| && data == file[..offset]
      ensures offset == |file| || offset >= |turns|
    {
      data := [];
      for i := 0 to |turns|
        invariant offset <= |file| && data == file[..offset] && (offset == |file| || offset >= i)
      {
        ghost var from := offset;
        var slice := Read(file, turns[i]);
        assert file[..from] + file[from..offset] == file[..offset];
        data := data + slice;
      }
    }

    /** Reading until nothing comes gives the whole file. */
    method ReadToEnd(file: seq<u8>, t: Turn) returns (data: seq<u8>)
      requires |file| < 0x8000_0000_0000_0000 && offset == 0 && Usable(t)
      modifies this
      ensures data == file && offset == |file|
    {
      data := [];
      var more := true;
      while more
        invariant offset <= |file| && data == file[..offset] && (!more ==> offset == |file|)
        decreases more, |file| - offset
      {
        ghost var from := offset;
        var slice := Read(file, t);
        assert file[..from] + file[from..offset] == file[..offset];
        data := data + slice;
        more := slice != [];
      }
    }

    /** Writing on until the buffer is done puts all of it at the offset. */
    method WriteAll(file: seq<u8>, buf: seq<u8>, t: Turn) returns (file1: seq<u8>)
      requires |file| + |buf| < 0x4000_0000_0000_0000 && offset <= |file| && Usable(t)
      modifies this
      ensures file1 == Overwritten(file, old(offset), buf) && offset == old(offset) + |buf|
    {
      file1 := file;
      var done := 0;
      OverwrittenByNothing(file, offset);
      while done < |buf|
        invariant done <= |buf| && offset == old(offset) + done <= |file1| <= |file| + done
        invariant file1 == Overwritten(file, old(offset), buf[..done])
      {
        var count := Min(t.count, |buf| - done);
        ghost var before := file1;
        var written;
        file1, written := Write(file1, buf[done..], t.(count := count));
        OverwrittenOn(file, old(offset), buf[..done], buf[done..][..written]);
        assert buf[..done] + buf[done..][..written] == buf[..done + written];
        done := done + written;
      }
      assert buf[..|buf|] == buf;
    }
  }

  /** The file with data in place from an offset within it, longer if need be. */
  function Overwritten(file: seq<u8>, at: nat, data: seq<u8>): seq<u8>
    requires at <= |file|
  {
    file[..at] + data + (if at + |data| <= |file| then file[at + |data|..] else [])
  }

  /** The data stands at its place, what was before and behind it stays, and the file grows only if it has to. */
  lemma OverwrittenAt(file: seq<u8>, at: nat, data: seq<u8>)
    requires at <= |file|
    ensures var f := Overwritten(file, at, data);
      && |f| == (if at + |data| <= |file| then |file| else at + |data|)
      && forall k :: 0 <= k < |f| ==> f[k] == if at <= k < at + |data| then data[k - at] else file[k]
  {
  }

  lemma OverwrittenByNothing(file: seq<u8>, at: nat)
    requires at <= |file|
    ensures Overwritten(file, at, []) == file
  {
  }

  lemma OverwrittenOn(file: seq<u8>, at: nat, first: seq<u8>, second: seq<u8>)
    requires at <= |file|
    ensures at + |first| <= |Overwritten(file, at, first)|
    ensures Overwritten(Overwritten(file, at, first), at + |first|, second) == Overwritten(file, at, first + second)
  {
  }
}
