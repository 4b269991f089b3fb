/** What NetrShareEnum requests and responses are on the wire, field by field in the order of sections 2.2.4 and 3.1.4.8
    of MS-SRVS, without a grammar. */
module SrvsvcWire {
  import opened Octets
  import opened NdrGrammar
  import opened NdrLayout
  import opened NdrMemory
  import opened NdrWire
  import opened NdrCoder
  import opened Srvsvc

  /** A count, a length or a pointer: eight octets in NDR64 and four in NDR32. */
  function Wide32(s: Syntax, x: u32): Part {
    Put(if s.ndr64 then 8 else 4, x)
  }

  /** A pointer that is not null. */
  function NonNull(s: Syntax): Part {
    if s.ndr64 then Put(8, 0x5570_7472_7274_7055) else Put(4, 0x7274_7055)
  }

  function ToWord(s: Syntax): Part {
    Pad(if s.ndr64 then 8 else 4)
  }

  /** Maximum count, offset and actual count, then the code units and a NUL. */
  function TextItems(s: Syntax, text: Wide): seq<Part>
    requires |text| < MaxLength()
  {
    [Wide32(s, |text| + 1), Wide32(s, 0), Wide32(s, |text| + 1), Pad(2)]
    + seq(|text|, i requires 0 <= i < |text| => Put(2, text[i])) + [Put(2, 0)]
  }

  function Joined(pieces: seq<seq<Part>>): seq<Part> {
    if pieces == [] then [] else Joined(pieces[..|pieces| - 1]) + pieces[|pieces| - 1]
  }

  // ----- One share: what stands in the array, and the strings behind the array -----

  function Info0Items(s: Syntax): seq<Part> {
    [NonNull(s)]
  }

  function Info1Items(s: Syntax, i: ShareInfo1): seq<Part> {
    [NonNull(s), Put(4, i.kind), NonNull(s)]
  }

  function Info2Items(s: Syntax, i: ShareInfo2): seq<Part> {
    [NonNull(s), Put(4, i.kind), NonNull(s), Put(4, i.permissions), Put(4, i.maxUses), Put(4, i.currentUses),
     NonNull(s), NonNull(s)]
  }

  function Texts1(s: Syntax, i: ShareInfo1): seq<Part>
    requires |i.netname| < MaxLength() && |i.remark| < MaxLength()
  {
    TextItems(s, i.netname) + TextItems(s, i.remark)
  }

  function Texts2(s: Syntax, i: ShareInfo2): seq<Part>
    requires |i.netname| < MaxLength() && |i.remark| < MaxLength() && |i.path| < MaxLength() && |i.passwd| < MaxLength()
  {
    TextItems(s, i.netname) + TextItems(s, i.remark) + TextItems(s, i.path) + TextItems(s, i.passwd)
  }

  // ----- The whole -----

  /** Level and discriminant, the pointer to the container, the container, and if it is not empty the array: its count,
      its shares, and behind them all their strings. */
  function EnumItems(s: Syntax, e: ShareEnum): seq<Part>
    requires Sized(e)
  {
    match e
    case OtherLevel(l) => [ToWord(s), Put(4, l), Wide32(s, l)]
    case Level0(xs) =>
      [ToWord(s), Put(4, 0), Wide32(s, 0), NonNull(s)] + CountItems(s, |xs|)
      + ArrayItems(s, seq(|xs|, i requires 0 <= i < |xs| => Info0Items(s)),
                   seq(|xs|, i requires 0 <= i < |xs| => TextItems(s, xs[i].netname)))
    case Level1(xs) =>
      [ToWord(s), Put(4, 1), Wide32(s, 1), NonNull(s)] + CountItems(s, |xs|)
      + ArrayItems(s, seq(|xs|, i requires 0 <= i < |xs| => Info1Items(s, xs[i])),
                   seq(|xs|, i requires 0 <= i < |xs| => Texts1(s, xs[i])))
    case Level2(xs) =>
      [ToWord(s), Put(4, 2), Wide32(s, 2), NonNull(s)] + CountItems(s, |xs|)
      + ArrayItems(s, seq(|xs|, i requires 0 <= i < |xs| => Info2Items(s, xs[i])),
                   seq(|xs|, i requires 0 <= i < |xs| => Texts2(s, xs[i])))
  }

  /** EntriesRead, and a pointer that is null if there are none. */
  function CountItems(s: Syntax, n: nat): seq<Part>
    requires n < 0x8000_0000
  {
    [ToWord(s), Put(4, n), if n == 0 then Wide32(s, 0) else NonNull(s)]
  }

  function ArrayItems(s: Syntax, infos: seq<seq<Part>>, texts: seq<seq<Part>>): seq<Part>
    requires |infos| < 0x8000_0000
  {
    if infos == [] then [] else [Wide32(s, |infos|), ToWord(s)] + Joined(infos) + Joined(texts)
  }

  function RepItems(s: Syntax, r: EnumRep): seq<Part>
    requires Sized(r.ses)
  {
    EnumItems(s, r.ses)
    + [Pad(4), Put(4, r.totalEntries)] + [NonNull(s), Pad(4), Put(4, r.resumeHandle)] + [Put(4, r.status)]
  }

  function ReqItems(s: Syntax, r: EnumReq): seq<Part>
    requires Sized(r.ses) && |r.serverName| < MaxLength()
  {
    [NonNull(s)] + TextItems(s, r.serverName) + EnumItems(s, r.ses)
    + [Pad(4), Put(4, r.preferedMaximumLength)] + [NonNull(s), Pad(4), Put(4, r.resumeHandle)]
  }

  // ----- The grammar gives the same -----

  lemma PointerIs(s: Syntax)
    ensures WordItem(s, UPTR) == NonNull(s) && WordSize(s) == ToWord(s).width
  {
  }

  lemma WideIs(s: Syntax, x: u32)
    ensures WordItem(s, x) == Wide32(s, x)
  {
  }

  lemma TextIs(s: Syntax, text: Wide)
    requires |text| < MaxLength()
    ensures ConstructItems(s, Utf16z, Str(text)) == TextItems(s, text)
  {
    hide WordItem, Wide32;
    WideIs(s, |text| + 1);
    WideIs(s, 0);
    var units: seq<Part> := seq(|text|, i requires 0 <= i < |text| => Put(2, text[i]));
    assert UnitsItems(Terminated(text)) == units + [Put(2, 0)];
    var w, z := Wide32(s, |text| + 1), Wide32(s, 0);
    assert [w, z, w] + [Pad(2)] == [w, z, w, Pad(2)];
  }

  lemma TopTextIs(s: Syntax, text: Wide)
    requires |text| < MaxLength()
    ensures Typed(STRING, Str(text)) && MessageItems(s, STRING, Str(text)) == [NonNull(s)] + TextItems(s, text)
  {
    hide ConstructItems, WordItem, TextItems, NonNull;
    PointerIs(s);
    TextIs(s, text);
  }

  lemma TopNumberIs(s: Syntax, x: u32)
    ensures MessageItems(s, Ptr(Ref, U32), Num(x)) == [Pad(4), Put(4, x)]
    ensures MessageItems(s, Ptr(Unique, U32), Num(x)) == [NonNull(s), Pad(4), Put(4, x)]
  {
    hide WordItem, NonNull;
    PointerIs(s);
    assert RefsC(Plain(U32), Num(x)) == [];
    assert ConstructItems(s, Plain(U32), Num(x)) == [] + [Pad(4)] + [Put(4, x)];
  }

  // ----- Queues of strings, which defer nothing more -----

  ghost predicate OnlyTexts(q: seq<Deferred>) {
    forall i :: 0 <= i < |q| ==> q[i].coder == Utf16z && q[i].val.Str? && |q[i].val.text| < MaxLength()
  }

  lemma {:induction false} TextsAppend(s: Syntax, p: seq<Deferred>, q: seq<Deferred>)
    requires OnlyTexts(p) && OnlyTexts(q)
    ensures DrainItems(s, p + q) == DrainItems(s, p) + DrainItems(s, q)
  {
    hide ConstructItems;
    if p == [] {
      assert p + q == q;
    } else {
      TextsAppend(s, p[1..], q);
      FirstText(s, p);
      FirstText(s, p + q);
      assert (p + q)[1..] == p[1..] + q;
    }
  }

  lemma FirstText(s: Syntax, q: seq<Deferred>)
    requires OnlyTexts(q) && q != []
    ensures DrainItems(s, q) == ConstructItems(s, q[0].coder, q[0].val) + DrainItems(s, q[1..])
  {
    hide ConstructItems;
    assert q[1..] + RefsC(q[0].coder, q[0].val) == q[1..];
  }

  lemma TextsOf(s: Syntax, text: Wide)
    requires |text| < MaxLength()
    ensures OnlyTexts(Refs(STRING, Str(text))) && DrainItems(s, Refs(STRING, Str(text))) == TextItems(s, text)
  {
    hide ConstructItems, TextItems;
    TextIs(s, text);
    FirstText(s, Refs(STRING, Str(text)));
  }

  /** What one share leaves in the array, and what it defers. */
  ghost predicate IsShare(s: Syntax, e: Shape, v: Val, info: seq<Part>, texts: seq<Part>)
    requires Typed(e, v)
  {
    BodyItems(s, e, v) == info && OnlyTexts(Refs(e, v)) && DrainItems(s, Refs(e, v)) == texts
  }

  lemma Share0(s: Syntax, i: ShareInfo0)
    requires |i.netname| < MaxLength()
    ensures Typed(SHARE_INFO_0, Info0Val(i))
    ensures IsShare(s, SHARE_INFO_0, Info0Val(i), Info0Items(s), TextItems(s, i.netname))
  {
    hide DrainItems, TextItems;
    PointerIs(s);
    TextsOf(s, i.netname);
  }

  lemma Share1(s: Syntax, i: ShareInfo1)
    requires |i.netname| < MaxLength() && |i.remark| < MaxLength()
    ensures Typed(SHARE_INFO_1, Info1Val(i)) && IsShare(s, SHARE_INFO_1, Info1Val(i), Info1Items(s, i), Texts1(s, i))
  {
    hide DrainItems, TextItems;
    ShareOfText(s, i.remark);
    ShareOfNumber(s, i.kind);
    ShareOfText(s, i.netname);
    ShareThen(s, U32, STRING, Num(i.kind), Str(i.remark), [Put(4, i.kind)], [], [NonNull(s)], TextItems(s, i.remark));
    ShareThen(s, STRING, Then(U32, STRING), Str(i.netname), Pair(Num(i.kind), Str(i.remark)), [NonNull(s)],
              TextItems(s, i.netname), [Put(4, i.kind), NonNull(s)], TextItems(s, i.remark));
  }

  lemma ShareOfText(s: Syntax, text: Wide)
    requires |text| < MaxLength()
    ensures Typed(STRING, Str(text)) && IsShare(s, STRING, Str(text), [NonNull(s)], TextItems(s, text))
  {
    hide DrainItems, TextItems, NonNull, WordItem;
    PointerIs(s);
    TextsOf(s, text);
  }

  lemma ShareOfNumber(s: Syntax, x: u32)
    ensures IsShare(s, U32, Num(x), [Put(4, x)], [])
  {
  }

  lemma ShareThen(s: Syntax, a: Shape, b: Shape, x: Val, y: Val,
                  infoA: seq<Part>, textsA: seq<Part>, infoB: seq<Part>, textsB: seq<Part>)
    requires Typed(a, x) && Typed(b, y) && IsShare(s, a, x, infoA, textsA) && IsShare(s, b, y, infoB, textsB)
    ensures Typed(Then(a, b), Pair(x, y)) && IsShare(s, Then(a, b), Pair(x, y), infoA + infoB, textsA + textsB)
  {
    hide DrainItems;
    TextsAppend(s, Refs(a, x), Refs(b, y));
  }

  lemma Share2(s: Syntax, i: ShareInfo2)
    requires |i.netname| < MaxLength() && |i.remark| < MaxLength() && |i.path| < MaxLength() && |i.passwd| < MaxLength()
    ensures Typed(SHARE_INFO_2, Info2Val(i)) && IsShare(s, SHARE_INFO_2, Info2Val(i), Info2Items(s, i), Texts2(s, i))
  {
    hide Typed, IsShare, TextItems, NonNull;
    var p := [NonNull(s)];
    ShareOfText(s, i.netname);
    ShareOfNumber(s, i.kind);
    ShareOfText(s, i.remark);
    ShareOfNumber(s, i.permissions);
    ShareOfNumber(s, i.maxUses);
    ShareOfNumber(s, i.currentUses);
    ShareOfText(s, i.path);
    ShareOfText(s, i.passwd);
    Numbers2(i);
    var f7, v7, i7 := Then(STRING, STRING), Pair(Str(i.path), Str(i.passwd)), p + p;
    var t7 := TextItems(s, i.path) + TextItems(s, i.passwd);
    ShareThen(s, STRING, STRING, Str(i.path), Str(i.passwd), p, TextItems(s, i.path), p, TextItems(s, i.passwd));
    var f6, v6, i6 := Then(U32, f7), Pair(Num(i.currentUses), v7), [Put(4, i.currentUses)] + i7;
    ShareThen(s, U32, f7, Num(i.currentUses), v7, [Put(4, i.currentUses)], [], i7, t7);
    var f5, v5, i5 := Then(U32, f6), Pair(Num(i.maxUses), v6), [Put(4, i.maxUses)] + i6;
    ShareThen(s, U32, f6, Num(i.maxUses), v6, [Put(4, i.maxUses)], [], i6, [] + t7);
    var f4, v4, i4 := Then(U32, f5), Pair(Num(i.permissions), v5), [Put(4, i.permissions)] + i5;
    ShareThen(s, U32, f5, Num(i.permissions), v5, [Put(4, i.permissions)], [], i5, [] + ([] + t7));
    var f3, v3, i3, t3 := Then(STRING, f4), Pair(Str(i.remark), v4), p + i4, TextItems(s, i.remark) + t7;
    assert [] + ([] + ([] + t7)) == t7;
    ShareThen(s, STRING, f4, Str(i.remark), v4, p, TextItems(s, i.remark), i4, t7);
    var f2, v2, i2 := Then(U32, f3), Pair(Num(i.kind), v3), [Put(4, i.kind)] + i3;
    ShareThen(s, U32, f3, Num(i.kind), v3, [Put(4, i.kind)], [], i3, t3);
    assert [] + t3 == t3;
    ShareThen(s, STRING, f2, Str(i.netname), v2, p, TextItems(s, i.netname), i2, t3);
    assert p + i2 == Info2Items(s, i);
    assert TextItems(s, i.netname) + t3 == Texts2(s, i);
  }

  lemma Numbers2(i: ShareInfo2)
    ensures Typed(U32, Num(i.kind)) && Typed(U32, Num(i.permissions))
    ensures Typed(U32, Num(i.maxUses)) && Typed(U32, Num(i.currentUses))
  {
  }

  // ----- The array -----

  ghost predicate AreShares(s: Syntax, e: Shape, vs: seq<Val>, infos: seq<seq<Part>>, texts: seq<seq<Part>>)
    requires TypedElems(e, vs)
  {
    |infos| == |texts| == |vs| && forall i :: 0 <= i < |vs| ==> IsShare(s, e, vs[i], infos[i], texts[i])
  }

  lemma {:induction false} SharesJoin(s: Syntax, e: Shape, vs: seq<Val>, infos: seq<seq<Part>>, texts: seq<seq<Part>>)
    requires TypedElems(e, vs) && AreShares(s, e, vs, infos, texts)
    ensures ElemsItems(s, e, vs) == Joined(infos) && OnlyTexts(ElemRefs(e, vs))
    ensures DrainItems(s, ElemRefs(e, vs)) == Joined(texts)
  {
    hide DrainItems, BodyItems, Typed, Refs;
    if vs == [] {
      NoTexts(s);
    } else {
      var n := |vs| - 1;
      SharesJoin(s, e, vs[..n], infos[..n], texts[..n]);
      assert IsShare(s, e, vs[n], infos[n], texts[n]);
      TextsAppend(s, ElemRefs(e, vs[..n]), Refs(e, vs[n]));
    }
  }

  lemma NoTexts(s: Syntax)
    ensures DrainItems(s, []) == []
  {
  }

  /** The pointer to the container, and everything behind it. */
  lemma ContainerIs(s: Syntax, e: Shape, vs: seq<Val>, infos: seq<seq<Part>>, texts: seq<seq<Part>>)
    requires |vs| < 0x8000_0000 && TypedElems(e, vs) && AreShares(s, e, vs, infos, texts)
    requires Alignment(s, e) == WordSize(s)
    ensures Typed(Container(e), Arr(vs))
    ensures DrainItems(s, [Deferred(Plain(Container(e)), Arr(vs))]) == CountItems(s, |vs|) + ArrayItems(s, infos, texts)
  {
    hide DrainItems, ConstructItems, CountItems, ArrayItems;
    var v, q := Arr(vs), [Deferred(Plain(Container(e)), Arr(vs))];
    DrainNext(s, q);
    ContainerBody(s, e, vs);
    assert q[1..] + RefsC(Plain(Container(e)), v) == RefsC(Plain(Container(e)), v);
    ArrayIs(s, e, vs, infos, texts);
  }

  lemma ArrayIs(s: Syntax, e: Shape, vs: seq<Val>, infos: seq<seq<Part>>, texts: seq<seq<Part>>)
    requires |vs| < 0x8000_0000 && TypedElems(e, vs) && AreShares(s, e, vs, infos, texts)
    requires Alignment(s, e) == WordSize(s) && Typed(Container(e), Arr(vs))
    ensures DrainItems(s, RefsC(Plain(Container(e)), Arr(vs))) == ArrayItems(s, infos, texts)
  {
    hide DrainItems, ConstructItems, IsShare;
    if vs == [] {
      NoTexts(s);
    } else {
      var q := [Deferred(Carray(e), Arr(vs))];
      assert RefsC(Plain(Container(e)), Arr(vs)) == q;
      DrainNext(s, q);
      assert q[1..] + ElemRefs(e, vs) == ElemRefs(e, vs);
      SharesJoin(s, e, vs, infos, texts);
      ArrayBody(s, e, vs);
    }
  }

  lemma ArrayBody(s: Syntax, e: Shape, vs: seq<Val>)
    requires vs != [] && |vs| < 0x8000_0000 && TypedElems(e, vs) && Alignment(s, e) == WordSize(s)
    ensures ConstructItems(s, Carray(e), Arr(vs)) == [Wide32(s, |vs|), ToWord(s)] + ElemsItems(s, e, vs)
  {
    hide WordItem, Wide32, ElemsItems;
    WideIs(s, |vs|);
    PointerIs(s);
    assert [WordItem(s, |vs|)] + [ToWord(s)] == [Wide32(s, |vs|), ToWord(s)];
  }

  lemma ContainerBody(s: Syntax, e: Shape, vs: seq<Val>)
    requires |vs| < 0x8000_0000 && TypedElems(e, vs)
    ensures Typed(Container(e), Arr(vs)) && ConstructItems(s, Plain(Container(e)), Arr(vs)) == CountItems(s, |vs|)
  {
    hide WordItem, NonNull, Wide32;
    PointerIs(s);
    WideIs(s, 0);
    var w := if vs == [] then WordItem(s, 0) else WordItem(s, UPTR);
    assert [] + [ToWord(s)] + [Put(4, |vs|), w] == [ToWord(s), Put(4, |vs|), w];
  }

  lemma DrainNext(s: Syntax, q: seq<Deferred>)
    requires TypedRefs(q) && q != []
    ensures var c, v := q[0].coder, q[0].val;
      DrainItems(s, q) == ConstructItems(s, c, v) + DrainItems(s, q[1..] + RefsC(c, v))
  {
    hide ConstructItems, RefsC;
  }

  // ----- The share list -----

  lemma UnionAlignment(s: Syntax)
    ensures Alignment(s, SHARE_ENUM_STRUCT) == WordSize(s) && Alignment(s, SHARE_INFO_0) == WordSize(s)
    ensures Alignment(s, SHARE_INFO_1) == WordSize(s) && Alignment(s, SHARE_INFO_2) == WordSize(s)
  {
    StringFirst(s, SHARE_INFO_1.second);
    StringFirst(s, SHARE_INFO_2.second);
  }

  lemma StringFirst(s: Syntax, rest: Shape)
    ensures Alignment(s, Then(STRING, rest)) == WordSize(s)
  {
    AlignmentBound(s, rest);
  }

  /** One known level: level, discriminant, pointer, and what the pointer leads to. */
  lemma LevelIs(s: Syntax, level: nat, e: Shape, vs: seq<Val>, infos: seq<seq<Part>>, texts: seq<seq<Part>>)
    requires level < 3 && e == [SHARE_INFO_0, SHARE_INFO_1, SHARE_INFO_2][level]
    requires |vs| < 0x8000_0000 && TypedElems(e, vs) && AreShares(s, e, vs, infos, texts)
    requires Typed(SHARE_ENUM_STRUCT, Alt(level, Arr(vs)))
    ensures MessageItems(s, Ptr(Ref, SHARE_ENUM_STRUCT), Alt(level, Arr(vs)))
         == [ToWord(s), Put(4, level), Wide32(s, level), NonNull(s)] + CountItems(s, |vs|) + ArrayItems(s, infos, texts)
  {
    hide DrainItems, WordItem, NonNull, Wide32, CountItems, ArrayItems, Alignment, Typed, AreShares;
    UnionAlignment(s);
    PointerIs(s);
    WideIs(s, level);
    ContainerIs(s, e, vs, infos, texts);
    ArmIs(s, level, e, vs);
    var v := Alt(level, Arr(vs));
    assert ConstructItems(s, Plain(SHARE_ENUM_STRUCT), v)
        == [] + [Pad(Alignment(s, SHARE_ENUM_STRUCT))] + BodyItems(s, SHARE_ENUM_STRUCT, v);
  }

  lemma ArmIs(s: Syntax, level: nat, e: Shape, vs: seq<Val>)
    requires level < 3 && e == [SHARE_INFO_0, SHARE_INFO_1, SHARE_INFO_2][level] && TypedElems(e, vs)
    requires Typed(SHARE_ENUM_STRUCT, Alt(level, Arr(vs)))
    ensures Typed(Container(e), Arr(vs))
    ensures Refs(SHARE_ENUM_STRUCT, Alt(level, Arr(vs))) == [Deferred(Plain(Container(e)), Arr(vs))]
    ensures BodyItems(s, SHARE_ENUM_STRUCT, Alt(level, Arr(vs)))
         == [Put(4, level), WordItem(s, level), WordItem(s, UPTR)]
  {
    hide WordItem;
    var arm, v := Ptr(Unique, Container(e)), Alt(level, Arr(vs));
    assert SHARE_ENUM_STRUCT.arms[level] == arm;
    assert Typed(arm, Arr(vs)) && Typed(Container(e), Arr(vs));
    assert BodyItems(s, arm, Arr(vs)) == [WordItem(s, UPTR)];
    assert BodyItems(s, SHARE_ENUM_STRUCT, v) == [Put(4, level), WordItem(s, level)] + BodyItems(s, arm, Arr(vs));
    assert Refs(SHARE_ENUM_STRUCT, v) == Refs(arm, Arr(vs));
  }

  lemma EnumIs(s: Syntax, e: ShareEnum)
    requires Sized(e)
    ensures Typed(SHARE_ENUM_STRUCT, EnumVal(e))
    ensures MessageItems(s, Ptr(Ref, SHARE_ENUM_STRUCT), EnumVal(e)) == EnumItems(s, e)
  {
    hide MessageItems, Typed, IsShare, Info0Val, Info1Val, Info2Val, Info0Items, Info1Items, Info2Items;
    hide TextItems, Texts1, Texts2;
    EnumCounts(e);
    match e
    case OtherLevel(l) => OtherLevelIs(s, l);
    case Level0(xs) =>
      forall i | 0 <= i < |xs|
        ensures Typed(SHARE_INFO_0, Info0Val(xs[i]))
        ensures IsShare(s, SHARE_INFO_0, Info0Val(xs[i]), Info0Items(s), TextItems(s, xs[i].netname))
      {
        Share0(s, xs[i]);
      }
      LevelIs(s, 0, SHARE_INFO_0, EnumVal(e).arm.elems, seq(|xs|, i requires 0 <= i < |xs| => Info0Items(s)),
              seq(|xs|, i requires 0 <= i < |xs| => TextItems(s, xs[i].netname)));
    case Level1(xs) =>
      forall i | 0 <= i < |xs|
        ensures Typed(SHARE_INFO_1, Info1Val(xs[i]))
        ensures IsShare(s, SHARE_INFO_1, Info1Val(xs[i]), Info1Items(s, xs[i]), Texts1(s, xs[i]))
      {
        Share1(s, xs[i]);
      }
      LevelIs(s, 1, SHARE_INFO_1, EnumVal(e).arm.elems, seq(|xs|, i requires 0 <= i < |xs| => Info1Items(s, xs[i])),
              seq(|xs|, i requires 0 <= i < |xs| => Texts1(s, xs[i])));
    case Level2(xs) =>
      forall i | 0 <= i < |xs|
        ensures Typed(SHARE_INFO_2, Info2Val(xs[i]))
        ensures IsShare(s, SHARE_INFO_2, Info2Val(xs[i]), Info2Items(s, xs[i]), Texts2(s, xs[i]))
      {
        Share2(s, xs[i]);
      }
      LevelIs(s, 2, SHARE_INFO_2, EnumVal(e).arm.elems, seq(|xs|, i requires 0 <= i < |xs| => Info2Items(s, xs[i])),
              seq(|xs|, i requires 0 <= i < |xs| => Texts2(s, xs[i])));
  }

  lemma OtherLevelIs(s: Syntax, l: u32)
    requires l > 2
    ensures Typed(SHARE_ENUM_STRUCT, Alt(l, Num(0)))
    ensures MessageItems(s, Ptr(Ref, SHARE_ENUM_STRUCT), Alt(l, Num(0))) == [ToWord(s), Put(4, l), Wide32(s, l)]
  {
    hide WordItem, Wide32, Alignment;
    WideIs(s, l);
    UnionAlignment(s);
    PointerIs(s);
    var v := Alt(l, Num(0));
    assert BodyItems(s, SHARE_ENUM_STRUCT, v) == [Put(4, l), WordItem(s, l)] + [];
    assert ConstructItems(s, Plain(SHARE_ENUM_STRUCT), v)
        == [] + [Pad(WordSize(s))] + BodyItems(s, SHARE_ENUM_STRUCT, v);
    assert RefsC(Plain(SHARE_ENUM_STRUCT), v) == [];
    NoTexts(s);
  }

  /** A response is these numbers on the wire, one after another. */
  lemma RepOnTheWire(s: Syntax, r: EnumRep, off: nat)
    requires Sized(r.ses)
    ensures Sound(RepItems(s, r)) && RepMessage(s, r, off) == Laid(s.little, RepItems(s, r), off)
  {
    hide EnumItems, Laid, Message;
    RepCounts(r);
    EnumIs(s, r.ses);
    RepItemsAre(s, r);
    MessageLaid(s, NETR_SHARE_ENUM_REP, RepVal(r), off);
  }

  lemma RepItemsAre(s: Syntax, r: EnumRep)
    requires Sized(r.ses) && Typed(NETR_SHARE_ENUM_REP, RepVal(r))
    requires Typed(SHARE_ENUM_STRUCT, EnumVal(r.ses))
    requires MessageItems(s, Ptr(Ref, SHARE_ENUM_STRUCT), EnumVal(r.ses)) == EnumItems(s, r.ses)
    ensures TopLevel(NETR_SHARE_ENUM_REP) && MessageItems(s, NETR_SHARE_ENUM_REP, RepVal(r)) == RepItems(s, r)
  {
    hide EnumItems, ReferredItems, NonNull;
    TopNumberIs(s, r.totalEntries);
    TopNumberIs(s, r.resumeHandle);
    var last := Then(Ptr(Unique, U32), U32);
    var l := Pair(Num(r.resumeHandle), Num(r.status));
    assert MessageItems(s, last, l) == [NonNull(s), Pad(4), Put(4, r.resumeHandle)] + [Put(4, r.status)];
    var total := Then(Ptr(Ref, U32), last);
    assert MessageItems(s, total, Pair(Num(r.totalEntries), l))
        == [Pad(4), Put(4, r.totalEntries)] + MessageItems(s, last, l);
  }

  /** And so is a request. */
  lemma ReqOnTheWire(s: Syntax, r: EnumReq, off: nat)
    requires Sized(r.ses) && |r.serverName| < MaxLength()
    ensures Sound(ReqItems(s, r)) && ReqMessage(s, r, off) == Laid(s.little, ReqItems(s, r), off)
  {
    hide EnumItems, TextItems, Laid, Message;
    ReqCounts(r);
    EnumIs(s, r.ses);
    ReqItemsAre(s, r);
    MessageLaid(s, NETR_SHARE_ENUM_REQ, ReqVal(r), off);
  }

  lemma ReqItemsAre(s: Syntax, r: EnumReq)
    requires Sized(r.ses) && |r.serverName| < MaxLength() && Typed(NETR_SHARE_ENUM_REQ, ReqVal(r))
    requires Typed(SHARE_ENUM_STRUCT, EnumVal(r.ses))
    requires MessageItems(s, Ptr(Ref, SHARE_ENUM_STRUCT), EnumVal(r.ses)) == EnumItems(s, r.ses)
    ensures TopLevel(NETR_SHARE_ENUM_REQ) && MessageItems(s, NETR_SHARE_ENUM_REQ, ReqVal(r)) == ReqItems(s, r)
  {
    hide EnumItems, TextItems, ReferredItems, NonNull;
    TopTextIs(s, r.serverName);
    TopNumberIs(s, r.preferedMaximumLength);
    TopNumberIs(s, r.resumeHandle);
    var last := Then(Ptr(Ref, U32), Ptr(Unique, U32));
    var l := Pair(Num(r.preferedMaximumLength), Num(r.resumeHandle));
    assert MessageItems(s, last, l)
        == [Pad(4), Put(4, r.preferedMaximumLength)] + [NonNull(s), Pad(4), Put(4, r.resumeHandle)];
    var list := Then(Ptr(Ref, SHARE_ENUM_STRUCT), last);
    assert MessageItems(s, list, Pair(EnumVal(r.ses), l)) == EnumItems(s, r.ses) + MessageItems(s, last, l);
  }

  // ----- Encoding -----

  /** The octets of the output are in the buffer from the offset on; those that it skips, and all others, stay. */
  ghost predicate Filled(before: seq<u8>, after: seq<u8>, off: nat, out: Out) {
    && |after| == |before|
    && forall i :: 0 <= i < |after| ==>
         after[i] == if off <= i < off + |out| && out[i - off].Some? then out[i - off].value else before[i]
  }

  method EncodeRep(s: Syntax, m: Memory, addr: nat, ghost r: EnumRep, buf: array<u8>, offset: nat) returns (ok: bool)
    requires Sized(r.ses) && EnumPointers(r.ses) <= 1024 && offset <= buf.Length
    requires RepHolds(m, addr, r, false)
    modifies buf
    ensures Sound(RepItems(s, r))
    ensures ok <==> offset + |Laid(s.little, RepItems(s, r), offset)| <= buf.Length
    ensures ok ==> Filled(old(buf[..]), buf[..], offset, Laid(s.little, RepItems(s, r), offset))
  {
    hide Laid, RepItems;
    RepCounts(r);
    RepOnTheWire(s, r, offset);
    ok := Encode(s, NETR_SHARE_ENUM_REP, m, addr, RepVal(r), buf, offset);
  }

  method EncodeReq(s: Syntax, m: Memory, addr: nat, ghost r: EnumReq, buf: array<u8>, offset: nat) returns (ok: bool)
    requires Sized(r.ses) && |r.serverName| < MaxLength()
    requires EnumPointers(r.ses) <= 1024 && offset <= buf.Length
    requires ReqHolds(m, addr, r, false)
    modifies buf
    ensures Sound(ReqItems(s, r))
    ensures ok <==> offset + |Laid(s.little, ReqItems(s, r), offset)| <= buf.Length
    ensures ok ==> Filled(old(buf[..]), buf[..], offset, Laid(s.little, ReqItems(s, r), offset))
  {
    hide Laid, ReqItems;
    ReqCounts(r);
    ReqOnTheWire(s, r, offset);
    ok := Encode(s, NETR_SHARE_ENUM_REQ, m, addr, ReqVal(r), buf, offset);
  }

  method Encode(s: Syntax, f: Shape, m: Memory, addr: nat, ghost v: Val, buf: array<u8>, offset: nat) returns (ok: bool)
    requires TopLevel(f) && Typed(f, v) && OneArray(f, v) && Deferrals(f, v) <= MAX_DEFERRED_PTR
    requires Holds(m, f, addr, v, false) && offset <= buf.Length
    modifies buf
    ensures ok <==> offset + |Message(s, f, v, offset)| <= buf.Length
    ensures ok ==> Filled(old(buf[..]), buf[..], offset, Message(s, f, v, offset))
  {
    hide Message, Holds, Written, Typed;
    var pdu := new Pdu(s, false, buf, offset, m);
    ok := pdu.Code(f, addr, v);
    if ok {
      WrittenFills(old(buf[..]), offset, Message(s, f, v, offset));
    }
  }

  lemma WrittenFills(b: seq<u8>, off: nat, out: Out)
    ensures Filled(b, Written(b, off, out), off, out)
  {
  }
}
