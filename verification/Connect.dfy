/** The chain of callbacks behind smb2_connect_share_async in lib/libsmb2.c: socket, negotiate, session setup as often
    as the server asks, tree connect. */
module Connect {
  import opened Octets
  import opened Errors

  // ----- The protocol as a state machine -----

  /** Who holds the connect data next; at the end, what the user's callback was told. Dangling: told and freed, but the
      request is still queued. Misused: such a request ran its callback on the freed data. */
  datatype Phase =
    | Connecting
    | Negotiating
    | SettingUp
    | TreeConnecting
    | Done(code: int)
    | Dangling(code: int, cb: Callback)
    | Misused

  datatype Callback = NegotiateCb | SessionSetupCb | TreeConnectCb

  /** What the environment decides while one event is handled: whether allocations and the authentication succeed, what
      the reply allows, and whether keys and signature are good. */
  datatype Chance = Chance(queued: bool, allowed: bool, authInit: bool, sent: int, token: bool,
                           keyGood: bool, signatureComputed: bool, signatureGood: bool)

  /** The transport, with an errno or 0; a reply with the status in its header, or the status of a request that timed
      out; the end of the context. */
  datatype Event = Socket(err: int, chance: Chance) | Reply(status: u32, chance: Chance) | Destroy(chance: Chance)

  predicate Outstanding(p: Phase) {
    p in {Negotiating, SettingUp, TreeConnecting}
  }

  function CallbackOf(p: Phase): Callback {
    match p
    case SettingUp => SessionSetupCb
    case TreeConnecting => TreeConnectCb
    case _ => NegotiateCb
  }

  function Step(p: Phase, e: Event, passthrough: bool): Phase {
    match p
    case Done(_) => p
    case Misused => p
    case Dangling(_, _) => if e.Socket? then p else Misused
    case Connecting =>
      (match e
       case Socket(err, x) => AfterSocket(err, x)
       case Reply(_, _) => p
       case Destroy(x) => AfterSocket(Signed(CANCELLED), x))
    case _ =>
      (match e
       case Socket(_, _) => p
       case Reply(status, x) =>
         if status == PENDING then (if passthrough then Dangling(-Errno(PENDING), CallbackOf(p)) else p)
         else Answered(p, status, x, passthrough)
       case Destroy(x) => Answered(p, SHUTDOWN, x, passthrough))
  }

  /** What the callback of an outstanding request makes of a final status. */
  function Answered(p: Phase, status: u32, x: Chance, passthrough: bool): Phase {
    match p
    case Negotiating => AfterNegotiate(status, x)
    case SettingUp => AfterSetup(status, x, passthrough)
    case TreeConnecting => AfterTree(status)
    case _ => p
  }

  function AfterSocket(err: int, x: Chance): Phase {
    if err != 0 then Done(-err) else if !x.queued then Done(-ENOMEM) else Negotiating
  }

  function AfterNegotiate(status: u32, x: Chance): Phase {
    if status != SUCCESS then Done(-Errno(status))
    else if !x.allowed || !x.authInit then Done(-ENOMEM)
    else if x.sent < 0 then Done(x.sent)
    else SettingUp
  }

  function AfterSetup(status: u32, x: Chance, passthrough: bool): Phase {
    if status == MORE_PROCESSING_REQUIRED && x.token then (if x.sent < 0 then Done(x.sent) else SettingUp)
    else if status != SUCCESS then Done(-Errno(status))
    else if !x.keyGood then Done(-EACCES)
    else if !x.signatureComputed || !x.signatureGood then Done(-EINVAL)
    else if passthrough then Done(0)
    else if !x.queued then Done(-ENOMEM)
    else TreeConnecting
  }

  function AfterTree(status: u32): Phase {
    if status != SUCCESS then Done(-Errno(status)) else Done(0)
  }

  function Steps(p: Phase, events: seq<Event>, passthrough: bool): Phase {
    if events == [] then p else Step(Steps(p, events[..|events| - 1], passthrough), events[|events| - 1], passthrough)
  }

  // ----- The objects -----

  /** struct connect_data: what became of it, the codes its callback was called with, and the uses after it was
      freed. */
  class ConnectData {
    var live: bool
    var frees: nat
    var called: seq<int>
    var late: nat

    /** calloc. */
    constructor ()
      ensures live && frees == 0 && called == [] && late == 0
    {
      live, frees, called, late := true, 0, [], 0;
    }
  }

  /** A request in the queues, with the callback and its private data. */
  datatype Pdu = Pdu(cb: Callback, data: ConnectData)

  /** How far the setup gets: no connect data, a string that cannot be copied, no user name, or a transport. */
  datatype Setup = NoMemory | CopyFails | NoUser | Connected(err: int) | External

  /** struct smb2_context, as far as the chain uses it. */
  class Context {
    var connectCb: bool
    var connectData: ConnectData?
    var pdus: seq<Pdu>
    const passthrough: bool

    constructor (raw: bool)
      ensures !connectCb && connectData == null && pdus == [] && passthrough == raw
    {
      connectCb, connectData, pdus, passthrough := false, null, [], raw;
    }

    /** Alive and held exactly once, or called exactly once, freed exactly once and held nowhere, or only by a request
        that should be gone. */
    ghost predicate Owns(c: ConnectData, p: Phase)
      reads this, c
    {
      match p
      case Done(code) => Told(c, code) && !connectCb && pdus == []
      case Connecting => Fresh(c) && connectData == c && connectCb && pdus == []
      case Dangling(code, cb) => passthrough && Told(c, code) && !connectCb && pdus == [Pdu(cb, c)]
      case Misused => !c.live && c.late > 0 && !connectCb && forall pdu :: pdu in pdus ==> pdu.data == c
      case _ => Fresh(c) && connectData == c && !connectCb && pdus == [Pdu(CallbackOf(p), c)]
    }

    /** Neither called nor freed. */
    static ghost predicate Fresh(c: ConnectData)
      reads c
    {
      c.live && c.frees == 0 && c.called == [] && c.late == 0
    }

    /** Called once, then freed once. */
    ghost predicate Told(c: ConnectData, code: int)
      reads this, c
    {
      !c.live && c.frees == 1 && c.called == [code] && c.late == 0 && connectData != c
    }

    /** The same with the continuation taken out of its slot or queue. */
    ghost predicate Held(c: ConnectData)
      reads this, c
    {
      Fresh(c) && connectData == c
    }

    /** The outcome of a handler, which leaves the slot and the rest of the queue alone. */
    ghost predicate Settled(c: ConnectData, p: Phase, slot: bool, rest: seq<Pdu>)
      reads this, c
    {
      connectCb == slot &&
      match p
      case Done(code) => Told(c, code) && pdus == rest
      case _ => Outstanding(p) && Held(c) && pdus == rest + [Pdu(CallbackOf(p), c)]
    }

    /** c_data->cb. */
    method Call(c: ConnectData, code: int)
      requires c.live
      modifies c
      ensures c.called == old(c.called) + [code] && c.live && c.frees == old(c.frees) && c.late == old(c.late)
    {
      c.called := c.called + [code];
    }

    /** free_c_data. */
    method Free(c: ConnectData)
      requires c.live
      modifies `connectData, c
      ensures !c.live && c.frees == old(c.frees) + 1 && c.called == old(c.called) && c.late == old(c.late)
      ensures connectData == if old(connectData) == c then null else old(connectData)
    {
      if connectData == c {
        connectData := null;
      }
      c.live, c.frees := false, c.frees + 1;
    }

    method Finish(c: ConnectData, code: int)
      requires Held(c)
      modifies `connectData, c
      ensures Settled(c, Done(code), connectCb, pdus)
    {
      Call(c, code);
      Free(c);
    }

    method Queue(cb: Callback, c: ConnectData)
      requires c.live
      modifies `pdus
      ensures pdus == old(pdus) + [Pdu(cb, c)]
    {
      pdus := pdus + [Pdu(cb, c)];
    }

    /** tree_connect_cb. */
    method OnTreeConnect(status: u32, c: ConnectData)
      requires Held(c)
      modifies this, c
      ensures Settled(c, AfterTree(status), old(connectCb), old(pdus))
    {
      if status != SUCCESS {
        Finish(c, -Errno(status));
        return;
      }
      Finish(c, 0);
    }

    /** send_session_setup_request: a blob from the authentication, then a PDU. */
    method SendSessionSetup(c: ConnectData, x: Chance) returns (ret: int)
      requires Held(c)
      modifies `pdus
      ensures if x.sent < 0 then ret == x.sent && pdus == old(pdus)
              else ret == 0 && pdus == old(pdus) + [Pdu(SessionSetupCb, c)]
    {
      if x.sent < 0 {
        return x.sent;
      }
      Queue(SessionSetupCb, c);
      return 0;
    }

    /** session_setup_cb. */
    method OnSessionSetup(status: u32, c: ConnectData, x: Chance)
      requires Held(c)
      modifies this, c
      ensures Settled(c, AfterSetup(status, x, passthrough), old(connectCb), old(pdus))
    {
      if status == MORE_PROCESSING_REQUIRED && x.token {
        var ret := SendSessionSetup(c, x);
        if ret < 0 {
          Finish(c, ret);
          return;
        }
        return;
      } else if status != SUCCESS {
        Finish(c, -Errno(status));
        return;
      }
      if !x.keyGood {
        Finish(c, -EACCES);
        return;
      }
      if !x.signatureComputed {
        Finish(c, -EINVAL);
        return;
      }
      if !x.signatureGood {
        Finish(c, -EINVAL);
        return;
      }
      if !passthrough {
        if !x.queued {
          Finish(c, -ENOMEM);
          return;
        }
        Queue(TreeConnectCb, c);
      } else {
        Finish(c, 0);
      }
    }

    /** negotiate_cb. */
    method OnNegotiate(status: u32, c: ConnectData, x: Chance)
      requires Held(c)
      modifies this, c
      ensures Settled(c, AfterNegotiate(status, x), old(connectCb), old(pdus))
    {
      if status != SUCCESS {
        Finish(c, -Errno(status));
        return;
      }
      if !x.allowed {
        Finish(c, -ENOMEM);
        return;
      }
      if !x.authInit {
        Finish(c, -ENOMEM);
        return;
      }
      var ret := SendSessionSetup(c, x);
      if ret < 0 {
        Finish(c, ret);
        return;
      }
    }

    /** connect_cb. */
    method OnConnect(err: int, c: ConnectData, x: Chance)
      requires Held(c)
      modifies this, c
      ensures Settled(c, AfterSocket(err, x), old(connectCb), old(pdus))
    {
      if err != 0 {
        Finish(c, -err);
        return;
      }
      if !x.queued {
        Finish(c, -ENOMEM);
        return;
      }
      Queue(NegotiateCb, c);
    }

    /** The socket is up or has failed, or the context is destroyed with the callback still in its slot. */
    method FireConnectCb(err: int, c: ConnectData, x: Chance)
      requires connectCb && Held(c) && pdus == []
      modifies this, c
      ensures Owns(c, AfterSocket(err, x))
    {
      OnConnect(err, c, x);
      connectCb := false;
    }

    /** pdu->cb, whose first act is to look into the connect data. What it does with data that is gone is not followed
        further. */
    method RunCallback(status: u32, pdu: Pdu, ghost p: Phase, x: Chance)
      requires !pdu.data.live || (Held(pdu.data) && Outstanding(p) && pdu.cb == CallbackOf(p))
      modifies this, pdu.data
      ensures !old(pdu.data.live) ==>
        !pdu.data.live && pdu.data.late == old(pdu.data.late) + 1 && pdus == old(pdus) && connectCb == old(connectCb)
      ensures old(pdu.data.live) ==>
        Settled(pdu.data, Answered(p, status, x, passthrough), old(connectCb), old(pdus))
    {
      if !pdu.data.live {
        pdu.data.late := pdu.data.late + 1;
        return;
      }
      match pdu.cb
      case NegotiateCb => OnNegotiate(status, pdu.data, x);
      case SessionSetupCb => OnSessionSetup(status, pdu.data, x);
      case TreeConnectCb => OnTreeConnect(status, pdu.data);
    }

    /** A final reply, a timeout, or the shutdown of the queues: the PDU leaves its queue and its callback runs. */
    method FirePdu(status: u32, ghost p: Phase, c: ConnectData, x: Chance)
      requires Owns(c, p) && pdus != [] && p != Connecting
      modifies this, c
      ensures Outstanding(p) ==> Owns(c, Answered(p, status, x, passthrough))
      ensures !Outstanding(p) ==> Owns(c, Misused)
    {
      var pdu := pdus[0];
      pdus := pdus[1..];
      RunCallback(status, pdu, p, x);
    }

    /** An interim reply: ignored, except that in passthrough the callback runs while the PDU stays in its queue. */
    method Interim(ghost p: Phase, c: ConnectData, x: Chance)
      requires Owns(c, p) && pdus != [] && p != Connecting
      modifies this, c
      ensures Owns(c, Step(p, Reply(PENDING, x), passthrough))
    {
      hide Errno;
      if passthrough {
        RunCallback(PENDING, pdus[0], p, x);
      }
    }

    /** smb2_destroy_context: the queues, then the slot; what it does about connect data left over then never comes to
        pass for this connection. */
    method DestroyContext(ghost p: Phase, c: ConnectData, x: Chance)
      requires Owns(c, p)
      modifies this, c
      ensures Owns(c, Step(p, Destroy(x), passthrough)) && !c.live
    {
      if |pdus| > 0 {
        FirePdu(SHUTDOWN, p, c, x);
      }
      if connectCb {
        FireConnectCb(Signed(CANCELLED), c, x);
      }
    }

    method Handle(e: Event, ghost p: Phase, c: ConnectData)
      requires Owns(c, p)
      modifies this, c
      ensures Owns(c, Step(p, e, passthrough))
    {
      match e
      case Socket(err, x) =>
        if connectCb {
          FireConnectCb(err, c, x);
        }
      case Reply(status, x) =>
        if |pdus| > 0 {
          if status == PENDING {
            Interim(p, c, x);
          } else {
            FirePdu(status, p, c, x);
          }
        }
      case Destroy(x) =>
        DestroyContext(p, c, x);
    }

    /** Any run of events: the connect data follows the machine. Unless an interim reply struck, it is never used after
        it is freed, and once the run is complete the callback was called exactly once and the data freed exactly
        once. */
    method Run(events: seq<Event>, c: ConnectData)
      requires Owns(c, Connecting)
      modifies this, c
      ensures Owns(c, Steps(Connecting, events, passthrough))
      ensures c.late > 0 ==> Struck(events, passthrough)
      ensures c.live ==> c.frees == 0 && c.called == [] && (pdus != [] || connectCb)
      ensures !c.live && !Struck(events, passthrough) ==> c.frees == 1 && |c.called| == 1 && pdus == [] && !connectCb
    {
      hide Step;
      for i := 0 to |events|
        invariant Owns(c, Steps(Connecting, events[..i], passthrough))
      {
        assert events[..i + 1][..i] == events[..i];
        Handle(events[i], Steps(Connecting, events[..i], passthrough), c);
      }
      assert events[..|events|] == events;
      StruckExactly(events, passthrough);
    }

    /** smb2_connect_share_async, from the allocation of the connect data on. */
    method ConnectShareAsync(setup: Setup, x: Chance) returns (ret: int, c: ConnectData?)
      requires !connectCb && connectData == null && pdus == []
      modifies this
      ensures setup == NoMemory ==> c == null && ret == -ENOMEM
      ensures setup != NoMemory ==> c != null && fresh(c)
      ensures ret == 0 <==> (setup.Connected? && setup.err == 0) || setup.External?
      ensures ret == 0 ==> Owns(c, if setup.Connected? then Connecting else AfterSocket(0, x))
      ensures ret != 0 && c != null ==> c.called == [] && !connectCb && pdus == []
      ensures ret != 0 && c != null ==> if setup == NoUser then c.live && c.frees == 0 else !c.live && c.frees == 1
    {
      if setup == NoMemory {
        return -ENOMEM, null;
      }
      c := new ConnectData();
      match setup
      case CopyFails =>
        Free(c);
        ret := -ENOMEM;
      case NoUser =>
        ret := -ENOMEM;
      case Connected(err) =>
        if err != 0 {
          Free(c);
          return err, c;
        }
        connectCb, connectData := true, c;
        ret := 0;
      case External =>
        connectCb, connectData := true, c;
        FireConnectCb(0, c, x);
        ret := 0;
    }
  }

  // ----- What the machine promises -----

  /** An interim reply in passthrough met an outstanding request: the branch of the code that runs the callback and
      keeps the request. */
  ghost predicate Struck(events: seq<Event>, passthrough: bool) {
    exists i :: 0 <= i < |events| && StruckAt(events, i, passthrough)
  }

  ghost predicate StruckAt(events: seq<Event>, i: nat, passthrough: bool)
    requires i < |events|
  {
    passthrough && IsInterim(events[i]) && Outstanding(Steps(Connecting, events[..i], passthrough))
  }

  predicate IsInterim(e: Event) {
    e.Reply? && e.status == 0x0000_0103
  }

  lemma {:induction false} StruckExactly(events: seq<Event>, passthrough: bool)
    ensures var p := Steps(Connecting, events, passthrough);
      p.Dangling? || p == Misused <==> Struck(events, passthrough)
  {
    if events != [] {
      var n := |events| - 1;
      var before := events[..n];
      StruckExactly(before, passthrough);
      forall i | 0 <= i < n ensures StruckAt(before, i, passthrough) <==> StruckAt(events, i, passthrough) {
        assert before[..i] == events[..i];
      }
      var p := Steps(Connecting, before, passthrough);
      if !p.Dangling? && p != Misused {
        forall i | 0 <= i < n ensures !StruckAt(events, i, passthrough) {
          assert !StruckAt(before, i, passthrough);
        }
        OneStrike(p, events[n], passthrough);
        assert StruckAt(events, n, passthrough) <==> passthrough && IsInterim(events[n]) && Outstanding(p);
      } else {
        var i :| 0 <= i < n && StruckAt(before, i, passthrough);
        assert StruckAt(events, i, passthrough);
      }
    }
  }

  lemma OneStrike(p: Phase, e: Event, passthrough: bool)
    ensures var q := Step(p, e, passthrough);
      q.Dangling? || q == Misused <==> p.Dangling? || p == Misused || (passthrough && IsInterim(e) && Outstanding(p))
  {
  }

  /** A complete run told the user once and freed once, unless an interim reply struck: then destroying the context
      uses the freed data again. */
  lemma CompleteRun(events: seq<Event>, x: Chance, passthrough: bool)
    ensures var p := Steps(Connecting, events + [Destroy(x)], passthrough);
      if Struck(events, passthrough) then p == Misused else p.Done?
  {
    StruckExactly(events, passthrough);
    OneMore(Connecting, events, Destroy(x), passthrough);
    hide Errno;
  }

  /** The shortest such run: an interim reply to the negotiate request. */
  lemma InterimReplyStrikes(up: Chance, x: Chance, y: Chance)
    requires up.queued
    ensures Steps(Connecting, [Socket(0, up), Reply(PENDING, x)], true) == Dangling(-Errno(PENDING), NegotiateCb)
    ensures Steps(Connecting, [Socket(0, up), Reply(PENDING, x), Destroy(y)], true) == Misused
  {
    hide Errno;
    var events := [Socket(0, up)];
    assert events == [] + [Socket(0, up)];
    OneMore(Connecting, [], Socket(0, up), true);
    OneMore(Connecting, events, Reply(PENDING, x), true);
    OneMore(Connecting, events + [Reply(PENDING, x)], Destroy(y), true);
    assert events + [Reply(PENDING, x)] + [Destroy(y)] == [Socket(0, up), Reply(PENDING, x), Destroy(y)];
  }

  // ----- When the user is told of success -----

  /** The event carries the connection on to its next request, or to the end. */
  predicate Succeeds(p: Phase, e: Event, passthrough: bool) {
    match p
    case Connecting => e.Socket? && e.err == 0 && e.chance.queued
    case Negotiating =>
      e.Reply? && e.status == 0 && e.chance.allowed && e.chance.authInit && e.chance.sent >= 0
    case SettingUp => AsksForMore(e) || (e.Reply? && SetUp(e.status, e.chance) && (passthrough || e.chance.queued))
    case TreeConnecting => e.Reply? && e.status == 0
    case _ => false
  }

  predicate AsksForMore(e: Event) {
    e.Reply? && e.status == 0xc000_0016 && e.chance.token && e.chance.sent >= 0
  }

  predicate SetUp(status: u32, x: Chance) {
    status == 0 && x.keyGood && x.signatureComputed && x.signatureGood
  }

  /** A reply to nothing, news of a socket that is up already, or an interim reply. */
  predicate Ignored(p: Phase, e: Event, passthrough: bool) {
    match e
    case Socket(_, _) => Outstanding(p)
    case Reply(status, _) => p == Connecting || (Outstanding(p) && status == 0x0000_0103 && !passthrough)
    case Destroy(_) => false
  }

  /** The last step of all. */
  predicate Last(p: Phase, e: Event, passthrough: bool) {
    p == TreeConnecting || (p == SettingUp && passthrough && !AsksForMore(e))
  }

  predicate EndOfFile(p: Phase, e: Event) {
    Outstanding(p) && e.Reply? && e.status == 0xc000_0011
  }

  /** Every event before the first k succeeded or was ignored. */
  ghost predicate AllSucceed(events: seq<Event>, k: nat, passthrough: bool)
    requires k <= |events|
  {
    forall i :: 0 <= i < k ==>
      var p := Steps(Connecting, events[..i], passthrough);
      Ignored(p, events[i], passthrough) || (Succeeds(p, events[i], passthrough) && !Last(p, events[i], passthrough))
  }

  /** Every step up to and including event k succeeded, and it was the last step. */
  ghost predicate EverySucceeded(events: seq<Event>, k: nat, passthrough: bool)
    requires k < |events|
  {
    var p := Steps(Connecting, events[..k], passthrough);
    AllSucceed(events, k, passthrough) && Succeeds(p, events[k], passthrough) && Last(p, events[k], passthrough)
  }

  /** Every step before event k succeeded, and that is an answer of status SMB2_STATUS_END_OF_FILE. */
  ghost predicate EndedByEndOfFile(events: seq<Event>, k: nat, passthrough: bool)
    requires k < |events|
  {
    AllSucceed(events, k, passthrough) && EndOfFile(Steps(Connecting, events[..k], passthrough), events[k])
  }

  /** The user is told of success exactly if every step succeeded, or some request was answered with
      SMB2_STATUS_END_OF_FILE, which has no errno of its own. */
  lemma ToldSuccess(events: seq<Event>, passthrough: bool)
    ensures Steps(Connecting, events, passthrough) == Done(0) <==>
      exists k :: 0 <= k < |events| && (EverySucceeded(events, k, passthrough) || EndedByEndOfFile(events, k, passthrough))
  {
    ToldOrOnTheWay(events, passthrough);
    assert forall k :: 0 <= k < |events| ==> (ToldBy(events, k, passthrough) <==>
      EverySucceeded(events, k, passthrough) || EndedByEndOfFile(events, k, passthrough));
  }

  predicate OnTheWay(p: Phase) {
    p == Connecting || Outstanding(p)
  }

  lemma OneStep(p: Phase, e: Event, passthrough: bool)
    ensures var q := Step(p, e, passthrough);
      && (OnTheWay(p) && q == Done(0) <==>
           OnTheWay(p) && ((Succeeds(p, e, passthrough) && Last(p, e, passthrough)) || EndOfFile(p, e)))
      && (OnTheWay(q) <==>
           Ignored(p, e, passthrough) || (Succeeds(p, e, passthrough) && !Last(p, e, passthrough)))
      && (!OnTheWay(p) ==> (q == Done(0) <==> p == Done(0)))
  {
    hide Errno;
    if e.Reply? {
      NoErrno(e.status);
    }
    NoErrno(PENDING);
    NoErrno(SHUTDOWN);
  }

  lemma SamePrefix(events: seq<Event>, n: nat, k: nat, passthrough: bool)
    requires n <= |events|
    ensures k <= n ==> AllSucceed(events[..n], k, passthrough) == AllSucceed(events, k, passthrough)
    ensures k < n ==> EverySucceeded(events[..n], k, passthrough) == EverySucceeded(events, k, passthrough)
    ensures k < n ==> EndedByEndOfFile(events[..n], k, passthrough) == EndedByEndOfFile(events, k, passthrough)
  {
    hide Steps, Ignored, Succeeds, Last, EndOfFile;
    assert forall i :: 0 <= i <= k && k <= n ==> events[..n][..i] == events[..i];
  }

  ghost predicate ToldBy(events: seq<Event>, k: nat, passthrough: bool)
    requires k < |events|
  {
    EverySucceeded(events, k, passthrough) || EndedByEndOfFile(events, k, passthrough)
  }

  lemma {:induction false} ToldOrOnTheWay(events: seq<Event>, passthrough: bool)
    ensures Steps(Connecting, events, passthrough) == Done(0) <==>
      exists k :: 0 <= k < |events| && ToldBy(events, k, passthrough)
    ensures OnTheWay(Steps(Connecting, events, passthrough)) <==> AllSucceed(events, |events|, passthrough)
  {
    if events != [] {
      var n := |events| - 1;
      ToldOrOnTheWay(events[..n], passthrough);
      OneStep(Steps(Connecting, events[..n], passthrough), events[n], passthrough);
      forall k | 0 <= k <= n
        ensures k == n ==> AllSucceed(events[..n], n, passthrough) == AllSucceed(events, n, passthrough)
        ensures k < n ==> ToldBy(events[..n], k, passthrough) == ToldBy(events, k, passthrough)
      {
        SamePrefix(events, n, k, passthrough);
      }
      ToldNow(events, n, passthrough);
    }
  }

  lemma ToldNow(events: seq<Event>, n: nat, passthrough: bool)
    requires n + 1 == |events|
    ensures var p := Steps(Connecting, events[..n], passthrough);
      var e := events[n];
      var before := AllSucceed(events, n, passthrough);
      && (ToldBy(events, n, passthrough) <==>
           before && ((Succeeds(p, e, passthrough) && Last(p, e, passthrough)) || EndOfFile(p, e)))
      && (AllSucceed(events, n + 1, passthrough) <==>
           before && (Ignored(p, e, passthrough) || (Succeeds(p, e, passthrough) && !Last(p, e, passthrough))))
  {
    hide Steps, Ignored, Succeeds, Last, EndOfFile;
  }

  /** What the user is told of a failure on the way. */
  lemma FailuresTold(x: Chance, passthrough: bool, err: int, status: u32)
    ensures err != 0 ==> Step(Connecting, Socket(err, x), passthrough) == Done(-err)
    ensures !x.queued ==> Step(Connecting, Socket(0, x), passthrough) == Done(-12)
    ensures status !in {0, 0x0000_0103, 0xc000_0016} ==>
      forall p :: Outstanding(p) ==> Step(p, Reply(status, x), passthrough) == Done(-Errno(status))
    ensures x.sent < 0 && x.allowed && x.authInit ==> Step(Negotiating, Reply(0, x), passthrough) == Done(x.sent)
    ensures x.sent < 0 && x.token ==> Step(SettingUp, Reply(0xc000_0016, x), passthrough) == Done(x.sent)
    ensures SetUp(0, x) && !x.queued && !passthrough ==> Step(SettingUp, Reply(0, x), passthrough) == Done(-12)
    ensures Step(Connecting, Destroy(x), passthrough) == Done(0x3fff_fee0)
    ensures !x.allowed || !x.authInit ==> Step(Negotiating, Reply(0, x), passthrough) == Done(-12)
    ensures !x.keyGood ==> Step(SettingUp, Reply(0, x), passthrough) == Done(-13)
    ensures x.keyGood && !(x.signatureComputed && x.signatureGood) ==>
      Step(SettingUp, Reply(0, x), passthrough) == Done(-22)
    ensures !x.token ==> Step(SettingUp, Reply(0xc000_0016, x), passthrough) == Done(-11)
    ensures forall p :: Outstanding(p) ==> Step(p, Destroy(x), passthrough) == Done(-1)
  {
  }

  /** Every callback succeeds and every allocation is there. */
  predicate Good(e: Event) {
    var x := e.chance;
    x.queued && x.allowed && x.authInit && x.sent >= 0 && x.token && x.keyGood && x.signatureComputed && x.signatureGood
  }

  /** A server that answers the negotiate request with SMB2_STATUS_END_OF_FILE: success is told without a session. */
  lemma EndOfFileTellsSuccess(up: Chance, x: Chance, passthrough: bool)
    requires up.queued
    ensures Steps(Connecting, [Socket(0, up), Reply(END_OF_FILE, x)], passthrough) == Done(0)
  {
    hide Errno;
    NoErrno(END_OF_FILE);
    assert [Socket(0, up)] == [] + [Socket(0, up)];
    OneMore(Connecting, [], Socket(0, up), passthrough);
    OneMore(Connecting, [Socket(0, up)], Reply(END_OF_FILE, x), passthrough);
  }

  /** However many rounds the server asks for, a run of good replies ends in success. */
  lemma {:induction false} AnyRoundsSucceed(up: Event, negotiated: Event, rounds: seq<Event>, setUp: Event, tree: Event)
    requires up.Socket? && negotiated.Reply? && setUp.Reply? && tree.Reply?
    requires Good(up) && Good(negotiated) && Good(setUp)
    requires up.err == 0 && negotiated.status == SUCCESS && setUp.status == SUCCESS && tree.status == SUCCESS
    requires forall e :: e in rounds ==> Good(e) && e.Reply? && e.status == MORE_PROCESSING_REQUIRED
    ensures Steps(Connecting, [up, negotiated] + rounds, false) == SettingUp
    ensures Steps(Connecting, [up, negotiated] + rounds + [setUp, tree], false) == Done(0)
  {
    var n := |rounds|;
    var events := [up, negotiated] + rounds;
    if n == 0 {
      assert events == [] + [up] + [negotiated];
      OneMore(Connecting, [], up, false);
      OneMore(Connecting, [] + [up], negotiated, false);
    } else {
      AnyRoundsSucceed(up, negotiated, rounds[..n - 1], setUp, tree);
      assert rounds[n - 1] in rounds;
      assert events == [up, negotiated] + rounds[..n - 1] + [rounds[n - 1]];
      OneMore(Connecting, [up, negotiated] + rounds[..n - 1], rounds[n - 1], false);
    }
    OneMore(Connecting, events, setUp, false);
    OneMore(Connecting, events + [setUp], tree, false);
    assert events + [setUp] + [tree] == events + [setUp, tree];
  }

  lemma OneMore(p: Phase, events: seq<Event>, e: Event, passthrough: bool)
    ensures Steps(p, events + [e], passthrough) == Step(Steps(p, events, passthrough), e, passthrough)
  {
    assert (events + [e])[..|events|] == events;
  }
}
