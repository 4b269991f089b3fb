/** Directory listings in lib/libsmb2.c: the callbacks that gather entries until there are no more, and the cursor that
    reads them. */
module Directory {
  import opened Wrappers
  import opened Octets
  import opened Sequences
  import opened Errors

  // ----- Entries on the wire -----

  /** A FILE_ID_FULL_DIRECTORY_INFORMATION record, as far as an entry is made from it. */
  datatype Record = Record(name: string, directory: bool, reparsePoint: bool, fileId: nat, endOfFile: nat, next: u32)

  datatype Kind = File | Dir | Link

  datatype Dirent = Dirent(name: string, kind: Kind, ino: nat, size: nat)

  function DirentOf(r: Record): Dirent {
    Dirent(r.name, if r.reparsePoint then Link else if r.directory then Dir else File, r.fileId, r.endOfFile)
  }

  /** A reparse point is a link, whatever else it is. */
  lemma EntryOfRecord(r: Record)
    ensures var d := DirentOf(r);
      && d.name == r.name && d.ino == r.fileId && d.size == r.endOfFile
      && (d.kind == Link <==> r.reparsePoint) && (d.kind == Dir <==> r.directory && !r.reparsePoint)
  {
  }

  /** The output buffer of one query: what the decoder makes of the octets from each offset, and the length. */
  datatype Batch = Batch(recordAt: nat -> Record, length: nat)

  const WORD := 0x1_0000_0000

  /** The offset after so many steps along the chain, in 32 bits. */
  function Visit(b: Batch, k: nat): nat {
    if k == 0 then 0 else (Visit(b, k - 1) + b.recordAt(Visit(b, k - 1)).next) % WORD
  }

  /** The loop ends here: the offset is outside the buffer, or its record is the last. */
  predicate Stops(b: Batch, k: nat) {
    Visit(b, k) >= b.length || b.recordAt(Visit(b, k)).next == 0
  }

  ghost predicate Ends(b: Batch) {
    exists k: nat :: Stops(b, k)
  }

  /** The step at which the loop ends. */
  ghost function StopAt(b: Batch): (k: nat)
    requires Ends(b)
    ensures Stops(b, k) && forall j: nat :: j < k ==> !Stops(b, j)
  {
    var k: nat :| Stops(b, k);
    FirstStop(b, k, 0)
  }

  ghost function FirstStop(b: Batch, k: nat, from: nat): (first: nat)
    requires from <= k && Stops(b, k) && forall j: nat :: j < from ==> !Stops(b, j)
    ensures Stops(b, first) && forall j: nat :: j < first ==> !Stops(b, j)
    decreases k - from
  {
    if Stops(b, from) then from else FirstStop(b, k, from + 1)
  }

  /** The entries of the first so many records of the chain. */
  function Taken(b: Batch, count: nat): (entries: seq<Dirent>)
    ensures |entries| == count
  {
    seq(count, i requires 0 <= i < count => DirentOf(b.recordAt(Visit(b, i))))
  }

  /** The entries along the chain, or nothing if it leaves the buffer or has no end. */
  ghost function EntriesOf(b: Batch): Option<seq<Dirent>> {
    if !Ends(b) || Visit(b, StopAt(b)) >= b.length then None else Some(Taken(b, StopAt(b) + 1))
  }

  /** After so many steps: the offset, that the loop did not end before, and whether it has one more turn. */
  ghost predicate Along(b: Batch, k: nat, offset: nat, more: bool) {
    Ends(b) &&
    if more then offset == Visit(b, k) && k <= StopAt(b)
    else k == StopAt(b) + 1 && Visit(b, StopAt(b)) < b.length
  }

  lemma AlongStarts(b: Batch)
    requires Ends(b)
    ensures Along(b, 0, 0, true) && Reversed(Taken(b, 0)) == []
  {
  }

  lemma AlongNext(b: Batch, k: nat, offset: nat)
    requires Along(b, k, offset, true) && offset < b.length
    ensures var r := b.recordAt(offset);
      && Along(b, k + 1, (offset + r.next) % WORD, r.next != 0)
      && (r.next != 0 ==> k < StopAt(b))
      && Reversed(Taken(b, k + 1)) == [DirentOf(r)] + Reversed(Taken(b, k))
  {
    var r := b.recordAt(offset);
    assert Taken(b, k + 1) == Taken(b, k) + [DirentOf(r)];
    ReversedOfConcat(Taken(b, k), [DirentOf(r)]);
    assert Reversed([DirentOf(r)]) == [DirentOf(r)];
    assert Stops(b, k) <==> r.next == 0;
  }

  lemma AlongEnds(b: Batch, k: nat, offset: nat, more: bool)
    requires Along(b, k, offset, more) && (more ==> offset >= b.length)
    ensures EntriesOf(b) == if more then None else Some(Taken(b, k))
  {
    if more {
      assert Stops(b, k);
    }
  }

  // ----- Chains that end -----

  /** Before it ends, the chain is at some offset for the second time. */
  ghost predicate ComesBack(b: Batch) {
    exists i: nat, j: nat :: i < j && Visit(b, i) == Visit(b, j) && GoesOn(b, j)
  }

  ghost predicate GoesOn(b: Batch, k: nat) {
    forall j: nat :: j < k ==> !Stops(b, j)
  }

  /** A chain ends unless it comes back to an offset it has been at. */
  lemma EndsExactly(b: Batch)
    ensures Ends(b) <==> !ComesBack(b)
  {
    if ComesBack(b) && Ends(b) {
      var i: nat, j: nat :| i < j && Visit(b, i) == Visit(b, j) && GoesOn(b, j);
      var n := StopAt(b) - j;
      Repeats(b, i, j, n);
      assert Stops(b, i + n);
    }
    if !Ends(b) {
      var visits := seq(b.length + 1, k requires 0 <= k <= b.length => Visit(b, k));
      forall k | 0 <= k < |visits| ensures visits[k] < b.length {
        assert !Stops(b, k);
      }
      Pigeonhole(visits, b.length);
      var i, j :| 0 <= i < j < |visits| && visits[i] == visits[j];
      assert Visit(b, i) == Visit(b, j) && GoesOn(b, j);
    }
  }

  /** From two equal offsets the chain goes on in the same way. */
  lemma {:induction false} Repeats(b: Batch, i: nat, j: nat, n: nat)
    requires Visit(b, i) == Visit(b, j)
    ensures Visit(b, i + n) == Visit(b, j + n)
  {
    if n > 0 {
      Repeats(b, i, j, n - 1);
    }
  }

  lemma {:induction false} Pigeonhole(s: seq<nat>, n: nat)
    requires |s| > n && forall k :: 0 <= k < |s| ==> s[k] < n
    ensures exists i, j :: 0 <= i < j < |s| && s[i] == s[j]
  {
    if !(exists i, j :: 0 <= i < j < |s| && s[i] == s[j] == n - 1) {
      var p := if exists k :: 0 <= k < |s| && s[k] == n - 1 then
        var k :| 0 <= k < |s| && s[k] == n - 1; k else 0;
      var rest := s[..p] + s[p + 1..];
      assert forall k :: 0 <= k < |rest| ==> rest[k] == s[if k < p then k else k + 1];
      assert forall k :: 0 <= k < |s| && k != p ==> s[k] != n - 1;
      Pigeonhole(rest, n - 1);
      var i, j :| 0 <= i < j < |rest| && rest[i] == rest[j];
      assert s[if i < p then i else i + 1] == s[if j < p then j else j + 1];
    }
  }

  /** No step the loop takes leaves 32 bits. */
  ghost predicate NoWrap(b: Batch) {
    forall k: nat :: GoesOn(b, k + 1) ==> Visit(b, k) + b.recordAt(Visit(b, k)).next < 0x1_0000_0000
  }

  lemma NoWrapEnds(b: Batch)
    requires NoWrap(b)
    ensures Ends(b)
  {
    if !Ends(b) {
      Climbs(b, b.length);
      assert Stops(b, b.length);
    }
  }

  lemma {:induction false} Climbs(b: Batch, k: nat)
    requires NoWrap(b) && GoesOn(b, k)
    ensures Visit(b, k) >= k
  {
    if k > 0 {
      Climbs(b, k - 1);
      assert GoesOn(b, k - 1 + 1);
      assert !Stops(b, k - 1);
    }
  }

  /** Two records that point at each other: the loop goes round for ever. */
  lemma TwoRecordsLoop(b: Batch, second: u32)
    requires 0 < second < b.length && b.recordAt(0).next == second && b.recordAt(second).next == 0x1_0000_0000 - second
    ensures !Ends(b)
  {
    assert Visit(b, 1) == second;
    assert Visit(b, 2) == Visit(b, 0);
    assert GoesOn(b, 2);
    EndsExactly(b);
  }

  // ----- The list in memory -----

  /** struct smb2_dirent_internal: nodes are only ever added in front. */
  datatype Entries = Null | Node(dirent: Dirent, next: Entries)

  function All(e: Entries): seq<Dirent> {
    match e
    case Null => []
    case Node(d, next) => [d] + All(next)
  }

  /** The pointer so many links on. */
  function After(e: Entries, n: nat): Entries {
    if n == 0 || e == Null then e else After(e.next, n - 1)
  }

  lemma {:induction false} AfterAll(e: Entries, n: nat)
    requires n <= |All(e)|
    ensures All(After(e, n)) == All(e)[n..]
  {
    if n > 0 {
      AfterAll(e.next, n - 1);
    }
  }

  lemma {:induction false} AfterNext(e: Entries, n: nat)
    requires After(e, n).Node?
    ensures After(e, n + 1) == After(e, n).next && n < |All(e)|
  {
    if n > 0 {
      AfterNext(e.next, n - 1);
    }
  }

  lemma ReversedOfConcat(s: seq<Dirent>, t: seq<Dirent>)
    ensures Reversed(s + t) == Reversed(t) + Reversed(s)
  {
  }

  // ----- The protocol as a state machine -----

  /** Which reply the next event finds outstanding, or that the callback was told, with or without the list. */
  datatype Phase = Opening | Querying | Closing | Done(code: int, listed: bool)

  datatype Callback = OpendirCb | QueryCb | CloseCb

  /** A listing, with the entries received so far. Dangling: told and freed, but the request is still queued. Misused:
      such a request ran its callback on the freed directory. */
  datatype Listing = Going(phase: Phase, got: seq<Dirent>) | Dangling(cb: Callback) | Misused

  const START := Going(Opening, [])

  /** A reply, or a timeout, with its output buffer and whether the next request can be queued; the end of the
      context. */
  datatype Event = Reply(status: u32, batch: Batch, queued: bool) | Destroy

  const NOTHING := Batch(_ => Record("", false, false, 0, 0, 0), 0)

  predicate IsInterim(e: Event) {
    e.Reply? && e.status == 0x0000_0103
  }

  function CallbackOf(p: Phase): Callback {
    match p
    case Querying => QueryCb
    case Closing => CloseCb
    case _ => OpendirCb
  }

  ghost function Step(s: Listing, e: Event, passthrough: bool): Listing {
    if IsInterim(e) && !passthrough then s
    else
      match s
      case Misused => s
      case Dangling(_) => Misused
      case Going(p, got) =>
        if p.Done? then s
        else if IsInterim(e) then Dangling(CallbackOf(p))
        else
          match e
          case Reply(status, b, queued) => Answered(p, got, status, b, queued)
          case Destroy => Answered(p, got, SHUTDOWN, NOTHING, false)
  }

  /** What the callback of the outstanding request makes of a final status. */
  ghost function Answered(p: Phase, got: seq<Dirent>, status: u32, b: Batch, queued: bool): (r: Listing)
    ensures r.Going?
  {
    match p
    case Opening => Going(AfterCreate(status, queued), got)
    case Querying => Going(AfterQuery(status, b, queued), if status == SUCCESS then WithEntries(got, b) else got)
    case Closing => Going(AfterClose(status), got)
    case _ => Going(p, got)
  }

  function AfterCreate(status: u32, queued: bool): Phase {
    if status != SUCCESS then Done(-Errno(status), false)
    else if !queued then Done(-ENOMEM, false)
    else Querying
  }

  ghost function AfterQuery(status: u32, b: Batch, queued: bool): Phase {
    if status == SUCCESS then (if EntriesOf(b).None? || !queued then Done(-ENOMEM, false) else Querying)
    else if status == NO_MORE_FILES then (if !queued then Done(-ENOMEM, false) else Closing)
    else Done(-Errno(status), false)
  }

  ghost function WithEntries(got: seq<Dirent>, b: Batch): seq<Dirent> {
    if EntriesOf(b).Some? then got + EntriesOf(b).value else got
  }

  function AfterClose(status: u32): Phase {
    if status != SUCCESS then Done(-Errno(status), false) else Done(0, true)
  }

  ghost function Steps(s: Listing, events: seq<Event>, passthrough: bool): Listing
    decreases |events|
  {
    if events == [] then s else Steps(Step(s, events[0], passthrough), events[1..], passthrough)
  }

  // ----- The objects -----

  /** A request in the queues, with the callback and its private data. */
  datatype Pdu = Pdu(cb: Callback, dir: SmbDir)

  /** struct smb2_context, as far as a listing uses it. */
  class Context {
    const passthrough: bool
    var pdus: seq<Pdu>

    constructor (raw: bool)
      ensures passthrough == raw && pdus == []
    {
      passthrough, pdus := raw, [];
    }

    method Queue(cb: Callback, dir: SmbDir)
      modifies this
      ensures pdus == old(pdus) + [Pdu(cb, dir)]
    {
      pdus := pdus + [Pdu(cb, dir)];
    }

    /** The directory and the queue are in this state. */
    ghost predicate Follows(d: SmbDir, s: Listing)
      reads this, d
    {
      d.Consistent() &&
      match s
      case Going(p, got) =>
        && d.phase == p && d.late == 0 && pdus == d.Next()
        && ((p.Done? && !p.listed) || All(d.entries) == Reversed(got))
        && (p.Done? && p.listed ==> d.Cursor() && d.index == 0)
      case Dangling(cb) => passthrough && Interrupted(d) && d.late == 0 && pdus == [Pdu(cb, d)]
      case Misused => Interrupted(d) && d.late > 0 && forall pdu :: pdu in pdus ==> pdu.dir == d
    }

    static ghost predicate Interrupted(d: SmbDir)
      reads d
    {
      d.phase == Done(-Errno(PENDING), false)
    }

    /** _smb2_opendir_async. */
    method OpendirAsync(room: bool, created: bool) returns (ok: bool, d: SmbDir?)
      requires pdus == []
      modifies this
      ensures ok <==> room && created
      ensures ok ==> d != null && fresh(d) && Follows(d, START)
      ensures !ok ==> pdus == [] && (d != null ==> fresh(d) && d.called == [] && d.frees == 1)
    {
      if !room {
        return false, null;
      }
      d := new SmbDir();
      if !created {
        d.frees := 1;
        return false, d;
      }
      Queue(OpendirCb, d);
      return true, d;
    }

    /** pdu->cb, whose first act is to look into the directory. What it does with one that is gone is not followed
        further. */
    method RunCallback(status: u32, b: Batch, queued: bool, pdu: Pdu)
      requires pdu.dir.frees == 0 ==>
        pdu.dir.Consistent() && !pdu.dir.phase.Done? && pdu.cb == CallbackOf(pdu.dir.phase)
      requires Ends(b)
      modifies this, pdu.dir
      ensures old(pdu.dir.frees) > 0 ==>
        && pdu.dir.late == old(pdu.dir.late) + 1 && pdus == old(pdus) && pdu.dir.called == old(pdu.dir.called)
        && pdu.dir.frees == old(pdu.dir.frees) && pdu.dir.phase == old(pdu.dir.phase)
      ensures old(pdu.dir.frees) == 0 ==>
        && pdu.dir.Consistent() && pdu.dir.late == old(pdu.dir.late) && pdus == old(pdus) + pdu.dir.Next()
        && (pdu.dir.phase.Done? && pdu.dir.phase.listed ==> pdu.dir.Cursor() && pdu.dir.index == 0)
        && forall got: seq<Dirent> :: old(All(pdu.dir.entries)) == Reversed(got) ==>
             pdu.dir.Tells(Answered(old(pdu.dir.phase), got, status, b, queued))
    {
      hide Errno, EntriesOf, Ends, Reversed;
      if pdu.dir.frees > 0 {
        pdu.dir.late := pdu.dir.late + 1;
        return;
      }
      ghost var before := pdu.dir.entries;
      match pdu.cb
      case OpendirCb => pdu.dir.OnCreate(this, status, queued);
      case QueryCb =>
        pdu.dir.OnQuery(this, status, b, queued);
        forall got: seq<Dirent> | All(before) == Reversed(got) && status == SUCCESS && EntriesOf(b).Some?
          ensures All(pdu.dir.entries) == Reversed(WithEntries(got, b))
        {
          ReversedOfConcat(got, EntriesOf(b).value);
        }
      case CloseCb => pdu.dir.OnClose(this, status);
    }

    /** A final reply, a timeout, or the shutdown of the queues: the PDU leaves its queue and its callback runs. */
    method FirePdu(status: u32, b: Batch, queued: bool, d: SmbDir, ghost s: Listing)
      requires Follows(d, s) && pdus != [] && Ends(b)
      modifies this, d
      ensures s.Going? ==> Follows(d, Answered(s.phase, s.got, status, b, queued))
      ensures !s.Going? ==> Follows(d, Misused)
    {
      hide Errno, Ends, AfterCreate, AfterQuery, AfterClose, WithEntries, All, Reversed;
      var pdu := pdus[0];
      pdus := pdus[1..];
      RunCallback(status, b, queued, pdu);
    }

    /** An interim reply: ignored, except that in passthrough the callback runs while the PDU stays in its queue. */
    method Interim(b: Batch, queued: bool, d: SmbDir, ghost s: Listing)
      requires Follows(d, s) && Ends(b)
      modifies this, d
      ensures Follows(d, Step(s, Reply(PENDING, b, queued), passthrough))
    {
      hide Errno, Ends, All, Reversed, EntriesOf;
      if passthrough && pdus != [] {
        RunCallback(PENDING, b, queued, pdus[0]);
      }
    }

    method Handle(e: Event, d: SmbDir, ghost s: Listing)
      requires Follows(d, s) && (e.Reply? ==> Ends(e.batch))
      modifies this, d
      ensures Follows(d, Step(s, e, passthrough))
    {
      hide Errno, Ends, All, Reversed, EntriesOf, Answered;
      match e
      case Reply(status, b, queued) =>
        if status == PENDING {
          Interim(b, queued, d, s);
        } else if pdus != [] {
          FirePdu(status, b, queued, d, s);
        }
      case Destroy =>
        if pdus != [] {
          NothingEnds(NOTHING);
          FirePdu(SHUTDOWN, NOTHING, false, d, s);
        }
    }

    /** Any run of events, with any number of batches in it. The callback gets the list exactly if every request is
        answered as it should be, and then it is all entries received, last first, with the cursor at its start; it is
        told 0 without a list exactly if SMB2_STATUS_END_OF_FILE, which has no errno, ends the run. Unless an interim
        reply struck, the directory is called once, freed at most once, then, and never used after that. */
    method List(events: seq<Event>, d: SmbDir)
      requires Follows(d, START) && forall i :: 0 <= i < |events| && events[i].Reply? ==> Ends(events[i].batch)
      modifies this, d
      ensures Follows(d, Steps(START, events, passthrough))
      ensures d.called == [(0, true)] <==> Whole(Heard(events, passthrough))
      ensures Whole(Heard(events, passthrough)) ==>
        All(d.entries) == Reversed(Received(Heard(events, passthrough))) && d.Cursor() && d.index == 0 && d.frees == 0
      ensures d.called == [(0, false)] <==> EndedByEndOfFile(Heard(events, passthrough))
      ensures d.late > 0 ==> Struck(events, passthrough)
      ensures d.called == [] ==> d.frees == 0 && |pdus| == 1
      ensures d.called != [] ==> |d.called| == 1 && d.frees == if d.called[0].1 then 0 else 1
      ensures d.called != [] && !Struck(events, passthrough) ==> pdus == []
    {
      hide Step, Ends, Errno, All, Reversed, Whole, EndedByEndOfFile, Heard, Received;
      ghost var s := START;
      for i := 0 to |events|
        invariant Follows(d, s) && Steps(s, events[i..], passthrough) == Steps(START, events, passthrough)
      {
        assert events[i..][1..] == events[i + 1..];
        Handle(events[i], d, s);
        s := Step(s, events[i], passthrough);
      }
      ListedExactly(events, passthrough);
      ToldZeroExactly(events, passthrough);
      StruckExactly(START, events, passthrough);
      NoErrno(PENDING);
    }
  }

  /** struct smb2dir. */
  class SmbDir {
    var entries: Entries
    var currentEntry: Entries
    var index: nat
    /** Codes given to the user's callback, each with or without the list, how often this was freed, and the uses after
        that. */
    var called: seq<(int, bool)>
    var frees: nat
    var late: nat
    ghost var phase: Phase

    constructor ()
      ensures entries == currentEntry == Null && index == 0 && called == [] && frees == late == 0 && phase == Opening
    {
      entries, currentEntry, index, called, frees, late, phase := Null, Null, 0, [], 0, 0, Opening;
    }

    /** Called and freed never before the end; at the end called once, and freed unless the callback got the list. */
    ghost predicate Consistent()
      reads this
    {
      match phase
      case Done(code, listed) => called == [(code, listed)] && frees == if listed then 0 else 1
      case _ => called == [] && frees == 0
    }

    /** The request that is queued. */
    ghost function Next(): seq<Pdu>
      reads this
    {
      if phase.Done? then [] else [Pdu(CallbackOf(phase), this)]
    }

    /** The phase and the entries are those of this state. */
    ghost predicate Tells(s: Listing)
      reads this
    {
      s.Going? && phase == s.phase && ((phase.Done? && !phase.listed) || All(entries) == Reversed(s.got))
    }

    /** The cursor is the entry at the index. */
    ghost predicate Cursor()
      reads this
    {
      index <= |All(entries)| && currentEntry == After(entries, index)
    }

    method Fail(code: int)
      requires called == [] && frees == 0
      modifies `called, `frees, `phase
      ensures Consistent() && phase == Done(code, false)
    {
      called, frees, phase := called + [(code, false)], frees + 1, Done(code, false);
    }

    /** decode_dirents. */
    method DecodeDirents(b: Batch) returns (ok: bool)
      requires Ends(b)
      modifies `entries
      ensures ok <==> EntriesOf(b).Some?
      ensures ok ==> All(entries) == Reversed(EntriesOf(b).value) + All(old(entries))
    {
      hide EntriesOf, Along, Reversed, Taken, DirentOf, Visit, Ends;
      var offset: nat := 0;
      var more := true;
      ghost var k: nat := 0;
      AlongStarts(b);
      while more
        invariant All(entries) == Reversed(Taken(b, k)) + All(old(entries))
        invariant Along(b, k, offset, more)
        decreases more, StopAt(b) - k
      {
        if offset >= b.length {
          AlongEnds(b, k, offset, true);
          return false;
        }
        AlongNext(b, k, offset);
        var fs := b.recordAt(offset);
        entries := Node(DirentOf(fs), entries);
        k := k + 1;
        offset := (offset + fs.next) % WORD;
        more := fs.next != 0;
      }
      AlongEnds(b, k, offset, false);
      ok := true;
    }

    /** opendir_cb. */
    method OnCreate(smb2: Context, status: u32, queued: bool)
      requires phase == Opening && Consistent()
      modifies `called, `frees, `phase, smb2
      ensures Consistent() && phase == AfterCreate(status, queued) && smb2.pdus == old(smb2.pdus) + Next()
    {
      hide Errno;
      if status != SUCCESS {
        Fail(-Errno(status));
        return;
      }
      if !queued {
        Fail(-ENOMEM);
        return;
      }
      phase := Querying;
      smb2.Queue(QueryCb, this);
    }

    /** query_cb. */
    method OnQuery(smb2: Context, status: u32, b: Batch, queued: bool)
      requires phase == Querying && Consistent() && Ends(b)
      modifies `entries, `called, `frees, `phase, smb2
      ensures Consistent() && phase == AfterQuery(status, b, queued) && smb2.pdus == old(smb2.pdus) + Next()
      ensures status == SUCCESS && EntriesOf(b).Some? ==>
        All(entries) == Reversed(EntriesOf(b).value) + All(old(entries))
      ensures status != SUCCESS ==> entries == old(entries)
    {
      hide Errno, EntriesOf, Ends, Reversed;
      if status == SUCCESS {
        var ok := DecodeDirents(b);
        if !ok {
          Fail(-ENOMEM);
          return;
        }
        if !queued {
          Fail(-ENOMEM);
          return;
        }
        smb2.Queue(QueryCb, this);
        return;
      }
      if status == NO_MORE_FILES {
        if !queued {
          Fail(-ENOMEM);
          return;
        }
        phase := Closing;
        smb2.Queue(CloseCb, this);
        return;
      }
      Fail(-Errno(status));
    }

    /** od_close_cb. */
    method OnClose(smb2: Context, status: u32)
      requires phase == Closing && Consistent()
      modifies `currentEntry, `index, `called, `frees, `phase
      ensures Consistent() && phase == AfterClose(status) && Next() == []
      ensures status == SUCCESS ==> Cursor() && index == 0
    {
      hide Errno;
      if status != SUCCESS {
        Fail(-Errno(status));
        return;
      }
      currentEntry := entries;
      index := 0;
      called, phase := called + [(0, true)], Done(0, true);
    }

    // ----- The cursor -----

    /** smb2_seekdir: past the end, or from a negative position, to the end. */
    method Seek(loc: int)
      requires Cursor()
      modifies `currentEntry, `index
      ensures Cursor()
      ensures index == if 0 <= loc <= |All(entries)| then loc else |All(entries)|
    {
      currentEntry := entries;
      index := 0;
      var left := loc;
      while currentEntry != Null && left != 0
        invariant Cursor() && left == loc - index && (loc >= 0 ==> left >= 0)
        decreases |All(entries)| - index
      {
        AfterNext(entries, index);
        left := left - 1;
        currentEntry := currentEntry.next;
        index := index + 1;
      }
      AfterAll(entries, index);
    }

    /** smb2_telldir. */
    method Tell() returns (loc: int)
      ensures loc == index
    {
      return index;
    }

    /** smb2_rewinddir. */
    method Rewind()
      modifies `currentEntry, `index
      ensures Cursor() && index == 0
    {
      currentEntry := entries;
      index := 0;
    }

    /** smb2_readdir. */
    method Read() returns (ent: Option<Dirent>)
      requires Cursor()
      modifies `currentEntry, `index
      ensures Cursor()
      ensures if old(index) < |All(entries)| then ent == Some(All(entries)[old(index)]) && index == old(index) + 1
              else ent == None && index == old(index)
    {
      AfterAll(entries, index);
      if currentEntry == Null {
        return None;
      }
      AfterNext(entries, index);
      ent := Some(currentEntry.dirent);
      assert All(currentEntry)[0] == currentEntry.dirent;
      currentEntry := currentEntry.next;
      index := index + 1;
    }

    method ReadMany(count: nat) returns (read: seq<Dirent>)
      requires Cursor()
      modifies `currentEntry, `index
      ensures Cursor()
      ensures index == if old(index) + count <= |All(entries)| then old(index) + count else |All(entries)|
      ensures read == All(entries)[old(index)..index]
    {
      read := [];
      for i := 0 to count
        invariant Cursor() && index >= old(index)
        invariant index == if old(index) + i <= |All(entries)| then old(index) + i else |All(entries)|
        invariant read == All(entries)[old(index)..index]
      {
        var ent := Read();
        if ent.Some? {
          read := read + [ent.value];
        }
      }
    }

    /** Seeking to a told position makes the reads repeat, wherever the cursor was moved in between. */
    method SeekToTold(count: nat, elsewhere: int) returns (first: seq<Dirent>, second: seq<Dirent>)
      requires Cursor()
      modifies `currentEntry, `index
      ensures first == second
    {
      var loc := Tell();
      first := ReadMany(count);
      Seek(elsewhere);
      Seek(loc);
      second := ReadMany(count);
    }
  }

  lemma NothingEnds(b: Batch)
    requires b.length == 0
    ensures Ends(b)
  {
    assert Stops(b, 0);
  }

  // ----- What the user is told -----

  /** The events without those that are ignored. */
  function Heard(events: seq<Event>, passthrough: bool): seq<Event> {
    if events == [] then []
    else if IsInterim(events[0]) && !passthrough then Heard(events[1..], passthrough)
    else [events[0]] + Heard(events[1..], passthrough)
  }

  lemma {:induction false} HeardSame(s: Listing, events: seq<Event>, passthrough: bool)
    ensures Steps(s, events, passthrough) == Steps(s, Heard(events, passthrough), passthrough)
    ensures forall e :: e in Heard(events, passthrough) && IsInterim(e) ==> passthrough
    decreases |events|
  {
    if events != [] {
      HeardSame(Step(s, events[0], passthrough), events[1..], passthrough);
      if !(IsInterim(events[0]) && !passthrough) {
        assert Heard(events, passthrough)[1..] == Heard(events[1..], passthrough);
      }
    }
  }

  /** The directory is open, and a query can follow. */
  predicate IsOpened(e: Event) {
    e.Reply? && e.status == 0 && e.queued
  }

  /** A well-formed batch that another query can follow. */
  ghost predicate IsBatch(e: Event) {
    e.Reply? && e.status == 0 && EntriesOf(e.batch).Some? && e.queued
  }

  /** There are no more batches, and the close can follow. */
  predicate IsLast(e: Event) {
    e.Reply? && e.status == 0x8000_0006 && e.queued
  }

  predicate IsClosed(e: Event) {
    e.Reply? && e.status == 0
  }

  predicate IsEndOfFile(e: Event) {
    e.Reply? && e.status == 0xc000_0011
  }

  /** How many batches come first. */
  ghost function Leading(h: seq<Event>): (n: nat)
    ensures n <= |h| && (forall i :: 0 <= i < n ==> IsBatch(h[i])) && (n < |h| ==> !IsBatch(h[n]))
  {
    if h == [] || !IsBatch(h[0]) then 0 else 1 + Leading(h[1..])
  }

  ghost function Entered(batches: seq<Event>): seq<Dirent>
    requires forall i :: 0 <= i < |batches| ==> IsBatch(batches[i])
  {
    if batches == [] then []
    else
      assert IsBatch(batches[0]);
      EntriesOf(batches[0].batch).value + Entered(batches[1..])
  }

  /** After the create request: batches, the end of them, and the reply to the close request. */
  ghost predicate WholeAfter(h: seq<Event>) {
    var n := Leading(h);
    n + 1 < |h| && IsLast(h[n]) && IsClosed(h[n + 1])
  }

  ghost predicate Whole(h: seq<Event>) {
    h != [] && IsOpened(h[0]) && WholeAfter(h[1..])
  }

  /** The entries of all batches of a run. */
  ghost function Received(h: seq<Event>): seq<Dirent>
    requires h != []
  {
    Entered(h[1..][..Leading(h[1..])])
  }

  ghost predicate EndedAfter(h: seq<Event>) {
    var n := Leading(h);
    n < |h| && (IsEndOfFile(h[n]) || (n + 1 < |h| && IsLast(h[n]) && IsEndOfFile(h[n + 1])))
  }

  /** The run came as far as some request, and that was answered with SMB2_STATUS_END_OF_FILE. */
  ghost predicate EndedByEndOfFile(h: seq<Event>) {
    h != [] && (IsEndOfFile(h[0]) || (IsOpened(h[0]) && EndedAfter(h[1..])))
  }

  ghost predicate Tells(s: Listing, code: int, listed: bool) {
    s.Going? && s.phase == Done(code, listed)
  }

  ghost predicate Over(s: Listing) {
    !s.Going? || s.phase.Done?
  }

  lemma {:induction false} OverStays(s: Listing, h: seq<Event>, passthrough: bool)
    requires Over(s)
    ensures Over(Steps(s, h, passthrough))
    ensures s.Going? ==> Steps(s, h, passthrough) == s
    ensures !s.Going? ==> !Steps(s, h, passthrough).Going?
    decreases |h|
  {
    if h != [] {
      OverStays(Step(s, h[0], passthrough), h[1..], passthrough);
    }
  }

  lemma FromClosing(h: seq<Event>, got: seq<Dirent>, passthrough: bool)
    requires forall e :: e in h && IsInterim(e) ==> passthrough
    ensures var s := Steps(Going(Closing, got), h, passthrough);
      && (Tells(s, 0, true) <==> h != [] && IsClosed(h[0]))
      && (Tells(s, 0, true) ==> s.got == got)
      && (Tells(s, 0, false) <==> h != [] && IsEndOfFile(h[0]))
  {
    hide Errno;
    if h != [] {
      var s := Step(Going(Closing, got), h[0], passthrough);
      AnswerErrno(h[0]);
      OverStays(s, h[1..], passthrough);
    }
  }

  lemma AnswerErrno(e: Event)
    ensures e.Reply? ==> (Errno(e.status) == 0 <==> e.status == SUCCESS || e.status == END_OF_FILE)
    ensures Errno(SHUTDOWN) != 0
  {
    if e.Reply? {
      NoErrno(e.status);
    }
    NoErrno(SHUTDOWN);
  }

  lemma NoReplies(h: seq<Event>)
    requires h == []
    ensures !WholeAfter(h) && !EndedAfter(h)
  {
  }

  lemma BatchFirst(h: seq<Event>)
    requires h != [] && IsBatch(h[0])
    ensures WholeAfter(h) == WholeAfter(h[1..]) && EndedAfter(h) == EndedAfter(h[1..])
    ensures Entered(h[..Leading(h)]) == EntriesOf(h[0].batch).value + Entered(h[1..][..Leading(h[1..])])
  {
    hide EntriesOf;
    var n := Leading(h[1..]);
    assert h[..n + 1][0] == h[0] && h[..n + 1][1..] == h[1..][..n];
  }

  lemma NoBatchFirst(h: seq<Event>)
    requires h != [] && !IsBatch(h[0])
    ensures WholeAfter(h) <==> |h| > 1 && IsLast(h[0]) && IsClosed(h[1])
    ensures EndedAfter(h) <==> IsEndOfFile(h[0]) || (|h| > 1 && IsLast(h[0]) && IsEndOfFile(h[1]))
    ensures Entered(h[..Leading(h)]) == []
  {
    assert h[..0] == [];
  }

  lemma QueryAnswered(e: Event, got: seq<Dirent>, passthrough: bool)
    requires IsInterim(e) ==> passthrough
    ensures var s := Step(Going(Querying, got), e, passthrough);
      if IsBatch(e) then s == Going(Querying, got + EntriesOf(e.batch).value)
      else if IsLast(e) then s == Going(Closing, got)
      else Over(s) && !Tells(s, 0, true) && (Tells(s, 0, false) <==> IsEndOfFile(e))
  {
    hide Errno, EntriesOf;
    AnswerErrno(e);
  }

  lemma {:induction false} FromQuerying(h: seq<Event>, got: seq<Dirent>, passthrough: bool)
    requires forall e :: e in h && IsInterim(e) ==> passthrough
    ensures var s := Steps(Going(Querying, got), h, passthrough);
      && (Tells(s, 0, true) <==> WholeAfter(h))
      && (WholeAfter(h) ==> s.got == got + Entered(h[..Leading(h)]))
      && (Tells(s, 0, false) <==> EndedAfter(h))
  {
    hide Step, EntriesOf, WholeAfter, EndedAfter, Entered, Leading;
    if h == [] {
      NoReplies(h);
    } else {
      var s := Step(Going(Querying, got), h[0], passthrough);
      QueryAnswered(h[0], got, passthrough);
      if IsBatch(h[0]) {
        var more, rest := EntriesOf(h[0].batch).value, Entered(h[1..][..Leading(h[1..])]);
        FromQuerying(h[1..], got + more, passthrough);
        BatchFirst(h);
        assert got + more + rest == got + (more + rest);
      } else if IsLast(h[0]) {
        FromClosing(h[1..], got, passthrough);
        NoBatchFirst(h);
        assert got + [] == got;
      } else {
        NoBatchFirst(h);
        OverStays(s, h[1..], passthrough);
      }
    }
  }

  lemma FromOpening(h: seq<Event>, passthrough: bool)
    requires forall e :: e in h && IsInterim(e) ==> passthrough
    ensures var s := Steps(START, h, passthrough);
      && (Tells(s, 0, true) <==> Whole(h))
      && (Whole(h) ==> s.got == Received(h))
      && (Tells(s, 0, false) <==> EndedByEndOfFile(h))
  {
    hide Errno, EntriesOf, WholeAfter, EndedAfter, Entered;
    if h != [] {
      var s := Step(START, h[0], passthrough);
      AnswerErrno(h[0]);
      if IsOpened(h[0]) {
        FromQuerying(h[1..], [], passthrough);
        assert Whole(h) ==> [] + Received(h) == Received(h);
      } else {
        OverStays(s, h[1..], passthrough);
      }
    }
  }

  /** The list is given exactly if the run is a whole one, and then it is everything received. */
  lemma ListedExactly(events: seq<Event>, passthrough: bool)
    ensures var s, h := Steps(START, events, passthrough), Heard(events, passthrough);
      && (Tells(s, 0, true) <==> Whole(h))
      && (Whole(h) ==> s.got == Received(h))
  {
    HeardSame(START, events, passthrough);
    FromOpening(Heard(events, passthrough), passthrough);
  }

  lemma ToldZeroExactly(events: seq<Event>, passthrough: bool)
    ensures Tells(Steps(START, events, passthrough), 0, false) <==> EndedByEndOfFile(Heard(events, passthrough))
  {
    HeardSame(START, events, passthrough);
    FromOpening(Heard(events, passthrough), passthrough);
  }

  /** A server that answers the create request so: code 0, no list. */
  lemma EndOfFileTellsNoList(b: Batch, queued: bool, later: seq<Event>, passthrough: bool)
    ensures Steps(START, [Reply(END_OF_FILE, b, queued)] + later, passthrough) == Going(Done(0, false), [])
  {
    hide Errno;
    NoErrno(END_OF_FILE);
    OverStays(Going(Done(0, false), []), later, passthrough);
  }

  /** What the user is told of a failure on the way. */
  lemma FailuresTold(got: seq<Dirent>, b: Batch, status: u32, queued: bool, passthrough: bool)
    ensures status !in {0, 0x0000_0103, 0x8000_0006} ==>
      forall p :: p in {Opening, Querying, Closing} ==>
        Step(Going(p, got), Reply(status, b, queued), passthrough) == Going(Done(-Errno(status), false), got)
    ensures Step(Going(Opening, got), Reply(0, b, false), passthrough) == Going(Done(-12, false), got)
    ensures EntriesOf(b).None? || !queued ==>
      Tells(Step(Going(Querying, got), Reply(0, b, queued), passthrough), -12, false)
    ensures Step(Going(Querying, got), Reply(0x8000_0006, b, false), passthrough) == Going(Done(-12, false), got)
    ensures forall p :: p in {Opening, Querying, Closing} ==>
      Step(Going(p, got), Destroy, passthrough) == Going(Done(-1, false), got)
  {
    hide EntriesOf;
  }

  // ----- Called and freed once -----

  /** An interim reply in passthrough met an outstanding request. */
  ghost predicate Struck(events: seq<Event>, passthrough: bool) {
    exists i :: 0 <= i < |events| && StruckAt(START, events, i, passthrough)
  }

  ghost predicate StruckAt(s: Listing, events: seq<Event>, i: nat, passthrough: bool)
    requires i < |events|
  {
    passthrough && IsInterim(events[i]) && !Over(Steps(s, events[..i], passthrough))
  }

  lemma {:induction false} StruckExactly(s: Listing, events: seq<Event>, passthrough: bool)
    requires s.Going?
    ensures !Steps(s, events, passthrough).Going? <==>
      exists i :: 0 <= i < |events| && StruckAt(s, events, i, passthrough)
    decreases |events|
  {
    hide Answered;
    if events != [] {
      var t := Step(s, events[0], passthrough);
      assert StruckAt(s, events, 0, passthrough) <==> !t.Going?;
      if t.Going? {
        StruckExactly(t, events[1..], passthrough);
        forall i | 0 <= i < |events| - 1
          ensures StruckAt(t, events[1..], i, passthrough) <==> StruckAt(s, events, i + 1, passthrough)
        {
          assert events[..i + 1][1..] == events[1..][..i];
        }
        Shifted(s, t, events, passthrough);
      } else {
        OverStays(t, events[1..], passthrough);
      }
    }
  }

  lemma Shifted(s: Listing, t: Listing, events: seq<Event>, passthrough: bool)
    requires events != [] && !StruckAt(s, events, 0, passthrough)
    requires forall i :: 0 <= i < |events| - 1 ==>
      (StruckAt(t, events[1..], i, passthrough) <==> StruckAt(s, events, i + 1, passthrough))
    ensures (exists i :: 0 <= i < |events| && StruckAt(s, events, i, passthrough)) <==>
      exists i :: 0 <= i < |events[1..]| && StruckAt(t, events[1..], i, passthrough)
  {
    hide StruckAt;
    if i :| 0 <= i < |events| && StruckAt(s, events, i, passthrough) {
      assert StruckAt(t, events[1..], i - 1, passthrough) <==> StruckAt(s, events, i - 1 + 1, passthrough);
    }
  }

  lemma {:induction false} StepsThen(s: Listing, events: seq<Event>, e: Event, passthrough: bool)
    ensures Steps(s, events + [e], passthrough) == Step(Steps(s, events, passthrough), e, passthrough)
    decreases |events|
  {
    hide Step;
    if events != [] {
      assert (events + [e])[1..] == events[1..] + [e];
      StepsThen(Step(s, events[0], passthrough), events[1..], e, passthrough);
    }
  }

  /** When the context is destroyed the user has been told once, unless an interim reply struck: then the freed
      directory is used again. */
  lemma CompleteRun(events: seq<Event>, passthrough: bool)
    ensures var s := Steps(START, events + [Destroy], passthrough);
      if Struck(events, passthrough) then s == Misused else s.Going? && s.phase.Done?
  {
    StruckExactly(START, events, passthrough);
    StepsThen(START, events, Destroy, passthrough);
    hide Errno;
  }

  /** The shortest such run: an interim reply to the create request. */
  lemma InterimReplyStrikes(b: Batch, queued: bool)
    ensures Steps(START, [Reply(PENDING, b, queued)], true) == Dangling(OpendirCb)
    ensures Steps(START, [Reply(PENDING, b, queued), Destroy], true) == Misused
  {
    assert [Reply(PENDING, b, queued), Destroy] == [Reply(PENDING, b, queued)] + [Destroy];
    StepsThen(START, [Reply(PENDING, b, queued)], Destroy, true);
  }
}
