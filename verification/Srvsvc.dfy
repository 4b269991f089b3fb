/** The grammar of NetrShareEnum in lib/dcerpc-srvsvc.c, and its round trip. */
module Srvsvc {
  import opened Wrappers
  import opened Octets
  import opened NdrGrammar
  import opened NdrMemory
  import opened NdrWire
  import opened NdrCoder

  // ----- The coders, as the compositions of NDR coders that they are -----

  const STRING: Shape := Text(Unique)

  const SHARE_INFO_0: Shape := STRING
  const SHARE_INFO_1: Shape := Then(STRING, Then(U32, STRING))
  const SHARE_INFO_2: Shape :=
    Then(STRING, Then(U32, Then(STRING, Then(U32, Then(U32, Then(U32, Then(STRING, STRING)))))))

  const SHARE_ENUM_STRUCT: Shape :=
    Union([Ptr(Unique, Container(SHARE_INFO_0)), Ptr(Unique, Container(SHARE_INFO_1)), Ptr(Unique, Container(SHARE_INFO_2))])

  const NETR_SHARE_ENUM_REQ: Shape :=
    Then(STRING, Then(Ptr(Ref, SHARE_ENUM_STRUCT), Then(Ptr(Ref, U32), Ptr(Unique, U32))))

  const NETR_SHARE_ENUM_REP: Shape :=
    Then(Ptr(Ref, SHARE_ENUM_STRUCT), Then(Ptr(Ref, U32), Then(Ptr(Unique, U32), U32)))

  // ----- The structures -----

  datatype ShareInfo0 = ShareInfo0(netname: Wide)
  datatype ShareInfo1 = ShareInfo1(netname: Wide, kind: u32, remark: Wide)
  datatype ShareInfo2 = ShareInfo2(netname: Wide, kind: u32, remark: Wide, permissions: u32, maxUses: u32,
                                   currentUses: u32, path: Wide, passwd: Wide)

  /** The union of containers; for any other level nothing but the level is coded. */
  datatype ShareEnum =
    | Level0(infos0: seq<ShareInfo0>)
    | Level1(infos1: seq<ShareInfo1>)
    | Level2(infos2: seq<ShareInfo2>)
    | OtherLevel(level: u32)

  datatype EnumReq = EnumReq(serverName: Wide, ses: ShareEnum, preferedMaximumLength: u32, resumeHandle: u32)
  datatype EnumRep = EnumRep(ses: ShareEnum, totalEntries: u32, resumeHandle: u32, status: u32)

  function Info0Val(i: ShareInfo0): Val {
    Str(i.netname)
  }

  function Info1Val(i: ShareInfo1): Val {
    Pair(Str(i.netname), Pair(Num(i.kind), Str(i.remark)))
  }

  function Info2Val(i: ShareInfo2): Val {
    Pair(Str(i.netname), Pair(Num(i.kind), Pair(Str(i.remark), Pair(Num(i.permissions), Pair(Num(i.maxUses),
      Pair(Num(i.currentUses), Pair(Str(i.path), Str(i.passwd))))))))
  }

  function EnumVal(e: ShareEnum): Val {
    match e
    case Level0(xs) => Alt(0, Arr(seq(|xs|, i requires 0 <= i < |xs| => Info0Val(xs[i]))))
    case Level1(xs) => Alt(1, Arr(seq(|xs|, i requires 0 <= i < |xs| => Info1Val(xs[i]))))
    case Level2(xs) => Alt(2, Arr(seq(|xs|, i requires 0 <= i < |xs| => Info2Val(xs[i]))))
    case OtherLevel(l) => Alt(l, Num(0))
  }

  function ReqVal(r: EnumReq): Val {
    Pair(Str(r.serverName), Pair(EnumVal(r.ses), Pair(Num(r.preferedMaximumLength), Num(r.resumeHandle))))
  }

  function RepVal(r: EnumRep): Val {
    Pair(EnumVal(r.ses), Pair(Num(r.totalEntries), Pair(Num(r.resumeHandle), Num(r.status))))
  }

  function MaxLength(): nat {
    0x7fff_ffff
  }

  /** Counts and lengths are C ints. */
  predicate Sized(e: ShareEnum) {
    match e
    case Level0(xs) => |xs| < 0x8000_0000 && forall i | i in xs :: |i.netname| < MaxLength()
    case Level1(xs) => |xs| < 0x8000_0000 && forall i | i in xs :: |i.netname| < MaxLength() && |i.remark| < MaxLength()
    case Level2(xs) => |xs| < 0x8000_0000 && forall i | i in xs ::
                         |i.netname| < MaxLength() && |i.remark| < MaxLength() && |i.path| < MaxLength() && |i.passwd| < MaxLength()
    case OtherLevel(l) => l > 2
  }

  /** How many pointers a share list defers: its container, its array, and every string. */
  function EnumPointers(e: ShareEnum): nat {
    match e
    case Level0(xs) => 1 + (if xs == [] then 0 else 1 + |xs|)
    case Level1(xs) => 1 + (if xs == [] then 0 else 1 + 2 * |xs|)
    case Level2(xs) => 1 + (if xs == [] then 0 else 1 + 4 * |xs|)
    case OtherLevel(_) => 0
  }

  // ----- The values are values of the grammar -----

  lemma Join(a: Shape, b: Shape, x: Val, y: Val)
    requires Typed(a, x) && Typed(b, y)
    ensures var f, v := Then(a, b), Pair(x, y);
            && Typed(f, v) && Nodes(f, v) == Nodes(a, x) + Nodes(b, y) && Sizes(f, v) == Sizes(a, x) + Sizes(b, y)
            && Deferrals(f, v) == Deferrals(a, x) + Deferrals(b, y)
            && (OneArray(f, v) <==> OneArray(a, x) && OneArray(b, y))
    ensures TopLevel(Then(a, b)) <==> TopLevel(a) && TopLevel(b)
  {
  }

  lemma Info1Counts(i: ShareInfo1)
    requires |i.netname| < MaxLength() && |i.remark| < MaxLength()
    ensures var v := Info1Val(i); Typed(SHARE_INFO_1, v) && Sizes(SHARE_INFO_1, v) == 0 && Nodes(SHARE_INFO_1, v) == 2
  {
    Join(U32, STRING, Num(i.kind), Str(i.remark));
    Join(STRING, Then(U32, STRING), Str(i.netname), Pair(Num(i.kind), Str(i.remark)));
  }

  lemma Info2Counts(i: ShareInfo2)
    requires |i.netname| < MaxLength() && |i.remark| < MaxLength() && |i.path| < MaxLength() && |i.passwd| < MaxLength()
    ensures var v := Info2Val(i); Typed(SHARE_INFO_2, v) && Sizes(SHARE_INFO_2, v) == 0 && Nodes(SHARE_INFO_2, v) == 4
  {
    hide Typed, Nodes, Sizes;
    var f7, v7 := Then(STRING, STRING), Pair(Str(i.path), Str(i.passwd));
    var f6, v6 := Then(U32, f7), Pair(Num(i.currentUses), v7);
    var f5, v5 := Then(U32, f6), Pair(Num(i.maxUses), v6);
    var f4, v4 := Then(U32, f5), Pair(Num(i.permissions), v5);
    var f3, v3 := Then(STRING, f4), Pair(Str(i.remark), v4);
    var f2, v2 := Then(U32, f3), Pair(Num(i.kind), v3);
    Scalars(i.path, i.currentUses);
    Scalars(i.passwd, i.maxUses);
    Scalars(i.remark, i.permissions);
    Scalars(i.netname, i.kind);
    Join(STRING, STRING, Str(i.path), Str(i.passwd));
    Join(U32, f7, Num(i.currentUses), v7);
    Join(U32, f6, Num(i.maxUses), v6);
    Join(U32, f5, Num(i.permissions), v5);
    Join(STRING, f4, Str(i.remark), v4);
    Join(U32, f3, Num(i.kind), v3);
    Join(STRING, f2, Str(i.netname), v2);
  }

  lemma Scalars(text: Wide, n: u32)
    requires |text| < MaxLength()
    ensures Typed(STRING, Str(text)) && Sizes(STRING, Str(text)) == 0 && Nodes(STRING, Str(text)) == 1
    ensures Typed(U32, Num(n)) && Sizes(U32, Num(n)) == 0 && Nodes(U32, Num(n)) == 0
  {
  }

  lemma {:induction false} ElemCounts(e: Shape, vs: seq<Val>, n: nat)
    requires TypedElems(e, vs) && forall i | 0 <= i < |vs| :: Sizes(e, vs[i]) == 0 && Nodes(e, vs[i]) == n
    ensures ElemSizes(e, vs) == 0 && ElemNodes(e, vs) == |vs| * n
  {
    hide Typed, Sizes, Nodes;
    if vs != [] { ElemCounts(e, vs[..|vs| - 1], n); }
  }

  lemma EnumCounts(e: ShareEnum)
    requires Sized(e)
    ensures Typed(SHARE_ENUM_STRUCT, EnumVal(e))
    ensures Sizes(SHARE_ENUM_STRUCT, EnumVal(e)) <= 1
    ensures Nodes(SHARE_ENUM_STRUCT, EnumVal(e)) == EnumPointers(e)
  {
    var v := EnumVal(e);
    match e
    case Level0(xs) =>
      forall i | 0 <= i < |xs| ensures Typed(SHARE_INFO_0, v.arm.elems[i]) { Scalars(xs[i].netname, 0); }
      ElemCounts(SHARE_INFO_0, v.arm.elems, 1);
      ArmCounts(SHARE_INFO_0, v, 0);
    case Level1(xs) =>
      forall i | 0 <= i < |xs|
        ensures Typed(SHARE_INFO_1, v.arm.elems[i]) && Sizes(SHARE_INFO_1, v.arm.elems[i]) == 0 && Nodes(SHARE_INFO_1, v.arm.elems[i]) == 2
      {
        Info1Counts(xs[i]);
      }
      ElemCounts(SHARE_INFO_1, v.arm.elems, 2);
      ArmCounts(SHARE_INFO_1, v, 1);
    case Level2(xs) =>
      forall i | 0 <= i < |xs|
        ensures Typed(SHARE_INFO_2, v.arm.elems[i]) && Sizes(SHARE_INFO_2, v.arm.elems[i]) == 0 && Nodes(SHARE_INFO_2, v.arm.elems[i]) == 4
      {
        Info2Counts(xs[i]);
      }
      ElemCounts(SHARE_INFO_2, v.arm.elems, 4);
      ArmCounts(SHARE_INFO_2, v, 2);
    case OtherLevel(l) =>
  }

  lemma ArmCounts(e: Shape, v: Val, level: nat)
    requires v.Alt? && v.level == level < 3 && e == [SHARE_INFO_0, SHARE_INFO_1, SHARE_INFO_2][level]
    requires v.arm.Arr? && |v.arm.elems| < 0x8000_0000 && TypedElems(e, v.arm.elems)
    ensures Typed(SHARE_ENUM_STRUCT, v)
    ensures Sizes(SHARE_ENUM_STRUCT, v) == if v.arm.elems == [] then 0 else 1 + ElemSizes(e, v.arm.elems)
    ensures Nodes(SHARE_ENUM_STRUCT, v) == 1 + if v.arm.elems == [] then 0 else 1 + ElemNodes(e, v.arm.elems)
  {
    var p := Ptr(Unique, Container(e));
    assert SHARE_ENUM_STRUCT.arms[level] == p;
    assert Typed(p, v.arm) by { assert Typed(Container(e), v.arm); }
    assert Sizes(p, v.arm) == Sizes(Container(e), v.arm);
    assert Nodes(p, v.arm) == 1 + Nodes(Container(e), v.arm);
  }

  lemma RepCounts(r: EnumRep)
    requires Sized(r.ses)
    ensures var f, v := NETR_SHARE_ENUM_REP, RepVal(r);
            TopLevel(f) && Typed(f, v) && OneArray(f, v) && Deferrals(f, v) == EnumPointers(r.ses)
  {
    EnumCounts(r.ses);
    var f1, v1 := Then(Ptr(Unique, U32), U32), Pair(Num(r.resumeHandle), Num(r.status));
    Join(Ptr(Unique, U32), U32, Num(r.resumeHandle), Num(r.status));
    Join(Ptr(Ref, U32), f1, Num(r.totalEntries), v1);
    Join(Ptr(Ref, SHARE_ENUM_STRUCT), Then(Ptr(Ref, U32), f1), EnumVal(r.ses), Pair(Num(r.totalEntries), v1));
  }

  lemma ReqCounts(r: EnumReq)
    requires Sized(r.ses) && |r.serverName| < MaxLength()
    ensures var f, v := NETR_SHARE_ENUM_REQ, ReqVal(r);
            TopLevel(f) && Typed(f, v) && OneArray(f, v) && Deferrals(f, v) == EnumPointers(r.ses)
  {
    EnumCounts(r.ses);
    var f1, v1 := Then(Ptr(Ref, U32), Ptr(Unique, U32)), Pair(Num(r.preferedMaximumLength), Num(r.resumeHandle));
    var f2, v2 := Then(Ptr(Ref, SHARE_ENUM_STRUCT), f1), Pair(EnumVal(r.ses), v1);
    Join(Ptr(Ref, U32), Ptr(Unique, U32), Num(r.preferedMaximumLength), Num(r.resumeHandle));
    Join(Ptr(Ref, SHARE_ENUM_STRUCT), f1, EnumVal(r.ses), v1);
    Join(STRING, f2, Str(r.serverName), v2);
  }

  /** A response is determined by its value. */
  lemma RepValInjective(r: EnumRep, q: EnumRep)
    requires Sized(r.ses) && Sized(q.ses) && RepVal(r) == RepVal(q)
    ensures r == q
  {
    EnumValInjective(r.ses, q.ses);
  }

  lemma EnumValInjective(a: ShareEnum, b: ShareEnum)
    requires Sized(a) && Sized(b) && EnumVal(a) == EnumVal(b)
    ensures a == b
  {
    var p, q := EnumVal(a), EnumVal(b);
    match a
    case Level0(xs) =>
      forall i | 0 <= i < |xs| ensures xs[i] == b.infos0[i] { assert p.arm.elems[i] == q.arm.elems[i]; }
    case Level1(xs) =>
      forall i | 0 <= i < |xs| ensures xs[i] == b.infos1[i] { assert p.arm.elems[i] == q.arm.elems[i]; }
    case Level2(xs) =>
      forall i | 0 <= i < |xs| ensures xs[i] == b.infos2[i] { assert p.arm.elems[i] == q.arm.elems[i]; }
    case OtherLevel(_) =>
  }

  // ----- Round trips -----

  ghost predicate RepHolds(m: Memory, addr: nat, r: EnumRep, strict: bool)
    requires Sized(r.ses)
  {
    RepCounts(r);
    Holds(m, NETR_SHARE_ENUM_REP, addr, RepVal(r), strict)
  }

  ghost function RepMessage(s: Syntax, r: EnumRep, off: nat): Out
    requires Sized(r.ses)
  {
    RepCounts(r);
    Message(s, NETR_SHARE_ENUM_REP, RepVal(r), off)
  }

  ghost predicate ReqHolds(m: Memory, addr: nat, r: EnumReq, strict: bool)
    requires Sized(r.ses) && |r.serverName| < MaxLength()
  {
    ReqCounts(r);
    Holds(m, NETR_SHARE_ENUM_REQ, addr, ReqVal(r), strict)
  }

  ghost function ReqMessage(s: Syntax, r: EnumReq, off: nat): Out
    requires Sized(r.ses) && |r.serverName| < MaxLength()
  {
    ReqCounts(r);
    Message(s, NETR_SHARE_ENUM_REQ, ReqVal(r), off)
  }

  /** Memory holds one response at most, so what a decoder delivers is the response. */
  lemma RepHoldsUnique(m: Memory, addr: nat, r: EnumRep, q: EnumRep, p: bool, b: bool)
    requires Sized(r.ses) && Sized(q.ses) && RepHolds(m, addr, r, p) && RepHolds(m, addr, q, b)
    ensures r == q
  {
    RepCounts(r);
    RepCounts(q);
    HoldsUnique(m, NETR_SHARE_ENUM_REP, addr, RepVal(r), RepVal(q), p, b);
    RepValInjective(r, q);
  }

  /** For every response, in either transfer syntax and either byte order: encoding succeeds exactly when
      the output fits; then decoding gives the response back, ends where the encoder ended, and the
      encoder has left the caller's structures as they were. */
  method EncodeThenDecodeRep(s: Syntax, m: Memory, addr: nat, ghost r: EnumRep, buf: array<u8>, offset: nat)
    returns (ok: bool, encoded: Pdu, decoded: Pdu)
    requires Sized(r.ses) && EnumPointers(r.ses) <= 1024 && offset <= buf.Length
    requires RepHolds(m, addr, r, false)
    modifies buf
    ensures ok <==> offset + |RepMessage(s, r, offset)| <= buf.Length
    ensures ok ==> encoded.mem == m && encoded.offset == decoded.offset
    ensures ok ==> RepHolds(decoded.mem, 0, r, true)
    ensures ok ==> encoded.curPtr == |encoded.ptrs| == |decoded.ptrs| == decoded.curPtr == EnumPointers(r.ses)
  {
    RepCounts(r);
    ok, encoded, decoded := RoundTrip(s, NETR_SHARE_ENUM_REP, m, addr, RepVal(r), buf, offset);
  }

  method EncodeThenDecodeReq(s: Syntax, m: Memory, addr: nat, ghost r: EnumReq, buf: array<u8>, offset: nat)
    returns (ok: bool, encoded: Pdu, decoded: Pdu)
    requires Sized(r.ses) && |r.serverName| < MaxLength() && EnumPointers(r.ses) <= 1024 && offset <= buf.Length
    requires ReqHolds(m, addr, r, false)
    modifies buf
    ensures ok <==> offset + |ReqMessage(s, r, offset)| <= buf.Length
    ensures ok ==> encoded.mem == m && encoded.offset == decoded.offset
    ensures ok ==> ReqHolds(decoded.mem, 0, r, true)
    ensures ok ==> encoded.curPtr == |encoded.ptrs| == |decoded.ptrs| == decoded.curPtr == EnumPointers(r.ses)
  {
    ReqCounts(r);
    ok, encoded, decoded := RoundTrip(s, NETR_SHARE_ENUM_REQ, m, addr, ReqVal(r), buf, offset);
  }
}
