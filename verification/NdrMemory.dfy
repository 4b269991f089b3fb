/** The caller's structures that the NDR coders read and fill, and the places of deferred referents in
    them. A cell is a scalar field, a string pointer, or a container's count and array pointer. */
module NdrMemory {
  import opened Wrappers
  import opened Octets
  import opened Numbers
  import opened NdrGrammar

  datatype Cell =
    | Zero
    | Number(n: u32)
    | Chars(text: Option<Wide>)
    | Swapped(utf16: Utf16)
    | Counted(count: u32, first: Option<nat>)

  /** struct dcerpc_utf16: what a string pointer is swapped for while its string is being coded. */
  datatype Utf16 = Utf16(maxCount: u32, start: u32, actualCount: u32, units: Wide, utf8: Option<Wide>)

  type Memory = seq<Cell>

  function TextOf(s: Option<Wide>): Wide {
    if s.Some? then s.value else []
  }

  function Width(f: Shape): (w: nat)
    ensures w > 0
  {
    match f
    case Ptr(_, t) => Width(t)
    case Then(a, b) => Width(a) + Width(b)
    case Union(arms) => 1 + MaxWidth(arms)
    case _ => 1
  }

  function MaxWidth(fs: seq<Shape>): (w: nat)
    ensures forall i | 0 <= i < |fs| :: Width(fs[i]) <= w
  {
    if fs == [] then 0 else Max(Width(fs[0]), MaxWidth(fs[1..]))
  }

  function WidthC(c: Coder, v: Val): nat
    requires TypedC(c, v)
  {
    match c
    case Plain(f) => Width(f)
    case Utf16z => 1
    case Carray(e) => Offset(e, |v.elems|)
  }

  /** The distance of element i from the start of its array. */
  function Offset(e: Shape, i: nat): nat {
    if i == 0 then 0 else Offset(e, i - 1) + Width(e)
  }

  lemma {:induction false} OffsetOrder(e: Shape, i: nat, n: nat)
    requires i < n
    ensures Offset(e, i) + Width(e) <= Offset(e, n)
  {
    if i < n - 1 { OffsetOrder(e, i, n - 1); }
  }

  predicate StringAt(m: Memory, addr: nat, text: Wide, strict: bool) {
    && addr < |m| && m[addr].Chars?
    && TextOf(m[addr].text) == text
    && (strict ==> m[addr].text.Some?)
  }

  /** The value is in memory at an address; strictly when none of its strings is NULL. */
  ghost predicate Holds(m: Memory, f: Shape, addr: nat, v: Val, strict: bool)
    requires Typed(f, v)
    decreases f
  {
    match f
    case U32 => addr < |m| && m[addr] == Number(v.n)
    case Text(_) => StringAt(m, addr, v.text, strict)
    case Ptr(_, t) => Holds(m, t, addr, v, strict)
    case Then(a, b) => Holds(m, a, addr, v.a, strict) && Holds(m, b, addr + Width(a), v.b, strict)
    case Container(e) =>
      && addr < |m| && m[addr].Counted? && m[addr].count == |v.elems|
      && (m[addr].first.None? <==> v.elems == [])
      && (v.elems != [] ==>
            forall i | 0 <= i < |v.elems| :: Holds(m, e, m[addr].first.value + Offset(e, i), v.elems[i], strict))
    case Union(arms) =>
      && addr < |m| && m[addr] == Number(v.level)
      && (v.level < |arms| ==> Holds(m, arms[v.level], addr + 1, v.arm, strict))
  }

  ghost predicate HoldsElems(m: Memory, e: Shape, addr: nat, vs: seq<Val>, strict: bool)
    requires TypedElems(e, vs)
  {
    forall i | 0 <= i < |vs| :: Holds(m, e, addr + Offset(e, i), vs[i], strict)
  }

  ghost predicate HoldsC(m: Memory, c: Coder, addr: nat, v: Val, strict: bool)
    requires TypedC(c, v)
  {
    match c
    case Plain(f) => Holds(m, f, addr, v, strict)
    case Utf16z => StringAt(m, addr, v.text, strict)
    case Carray(e) => HoldsElems(m, e, addr, v.elems, strict)
  }

  /** The part of a value that coding it stores, as opposed to what it defers. */
  ghost predicate Stores(m: Memory, f: Shape, addr: nat, v: Val)
    requires Typed(f, v)
    decreases f
  {
    match f
    case U32 => addr < |m| && m[addr] == Number(v.n)
    case Text(_) => true
    case Ptr(_, _) => true
    case Then(a, b) => Stores(m, a, addr, v.a) && Stores(m, b, addr + Width(a), v.b)
    case Container(e) =>
      && addr < |m| && m[addr].Counted? && m[addr].count == |v.elems|
      && (m[addr].first.None? <==> v.elems == [])
    case Union(arms) =>
      && addr < |m| && m[addr] == Number(v.level)
      && (v.level < |arms| ==> Stores(m, arms[v.level], addr + 1, v.arm))
  }

  ghost predicate StoresElems(m: Memory, e: Shape, addr: nat, vs: seq<Val>)
    requires TypedElems(e, vs)
  {
    forall i | 0 <= i < |vs| :: Stores(m, e, addr + Offset(e, i), vs[i])
  }

  ghost predicate StoresC(m: Memory, c: Coder, addr: nat, v: Val)
    requires TypedC(c, v)
  {
    match c
    case Plain(f) => Stores(m, f, addr, v)
    case Utf16z => StringAt(m, addr, v.text, true)
    case Carray(e) => StoresElems(m, e, addr, v.elems)
  }

  // ----- Where deferred referents are -----

  datatype Item = Item(coder: Coder, addr: nat, val: Val)

  predicate TypedItems(q: seq<Item>) {
    forall i | 0 <= i < |q| :: TypedC(q[i].coder, q[i].val)
  }

  function ArrayAt(m: Memory, addr: nat): nat {
    if addr < |m| && m[addr].Counted? && m[addr].first.Some? then m[addr].first.value else 0
  }

  function Kids(m: Memory, f: Shape, addr: nat, v: Val): (q: seq<Item>)
    requires Typed(f, v)
    ensures TypedItems(q)
    decreases f
  {
    match f
    case U32 => []
    case Text(_) => [Item(Utf16z, addr, v)]
    case Ptr(_, t) => [Item(Plain(t), addr, v)]
    case Then(a, b) => Kids(m, a, addr, v.a) + Kids(m, b, addr + Width(a), v.b)
    case Container(e) => if v.elems == [] then [] else [Item(Carray(e), ArrayAt(m, addr), v)]
    case Union(arms) => if v.level < |arms| then Kids(m, arms[v.level], addr + 1, v.arm) else []
  }

  function ElemKids(m: Memory, e: Shape, addr: nat, vs: seq<Val>): (q: seq<Item>)
    requires TypedElems(e, vs)
    ensures TypedItems(q)
  {
    if vs == [] then []
    else
      var n := |vs| - 1;
      ElemKids(m, e, addr, vs[..n]) + Kids(m, e, addr + Offset(e, n), vs[n])
  }

  function KidsC(m: Memory, c: Coder, addr: nat, v: Val): (q: seq<Item>)
    requires TypedC(c, v)
    ensures TypedItems(q)
  {
    match c
    case Plain(f) => Kids(m, f, addr, v)
    case Utf16z => []
    case Carray(e) => ElemKids(m, e, addr, v.elems)
  }

  function Forget(q: seq<Item>): (r: seq<Deferred>)
    requires TypedItems(q)
    ensures TypedRefs(r) && |r| == |q|
    ensures forall i | 0 <= i < |q| :: r[i] == Deferred(q[i].coder, q[i].val)
  {
    seq(|q|, i requires 0 <= i < |q| => Deferred(q[i].coder, q[i].val))
  }

  lemma ForgetConcat(p: seq<Item>, q: seq<Item>)
    requires TypedItems(p) && TypedItems(q)
    ensures Forget(p + q) == Forget(p) + Forget(q)
  {
  }

  /** An entry of the PDU's pointer array: a coder and what to apply it to. */
  datatype Pointer = Pointer(coder: Coder, addr: nat)

  function Pointers(q: seq<Item>): (r: seq<Pointer>)
    ensures |r| == |q|
  {
    seq(|q|, i requires 0 <= i < |q| => Pointer(q[i].coder, q[i].addr))
  }

  lemma PointersConcat(p: seq<Item>, q: seq<Item>)
    ensures Pointers(p + q) == Pointers(p) + Pointers(q)
  {
  }

  /** Where a referent is does not change which referents there are, nor their order: the encoder and
      the decoder defer the same ones. */
  lemma {:induction false} KidsAreRefs(m: Memory, f: Shape, addr: nat, v: Val)
    requires Typed(f, v)
    ensures Forget(Kids(m, f, addr, v)) == Refs(f, v)
    decreases f
  {
    match f
    case U32 =>
    case Text(_) =>
    case Ptr(_, t) =>
    case Then(a, b) =>
      KidsAreRefs(m, a, addr, v.a);
      KidsAreRefs(m, b, addr + Width(a), v.b);
      ForgetConcat(Kids(m, a, addr, v.a), Kids(m, b, addr + Width(a), v.b));
    case Container(e) =>
    case Union(arms) =>
      if v.level < |arms| { KidsAreRefs(m, arms[v.level], addr + 1, v.arm); }
  }

  lemma {:induction false} ElemKidsAreRefs(m: Memory, e: Shape, addr: nat, vs: seq<Val>)
    requires TypedElems(e, vs)
    ensures Forget(ElemKids(m, e, addr, vs)) == ElemRefs(e, vs)
  {
    if vs != [] {
      var n := |vs| - 1;
      ElemKidsAreRefs(m, e, addr, vs[..n]);
      KidsAreRefs(m, e, addr + Offset(e, n), vs[n]);
      ForgetConcat(ElemKids(m, e, addr, vs[..n]), Kids(m, e, addr + Offset(e, n), vs[n]));
    }
  }

  lemma KidsCAreRefs(m: Memory, c: Coder, addr: nat, v: Val)
    requires TypedC(c, v)
    ensures Forget(KidsC(m, c, addr, v)) == RefsC(c, v)
  {
    match c
    case Plain(f) => KidsAreRefs(m, f, addr, v);
    case Utf16z =>
    case Carray(e) => ElemKidsAreRefs(m, e, addr, v.elems);
  }

  ghost predicate AllHold(m: Memory, q: seq<Item>, strict: bool)
    requires TypedItems(q)
  {
    forall i | 0 <= i < |q| :: HoldsC(m, q[i].coder, q[i].addr, q[i].val, strict)
  }

  /** The referents of a value that is in memory are in memory. */
  lemma {:induction false} KidsHold(m: Memory, f: Shape, addr: nat, v: Val, strict: bool)
    requires Typed(f, v) && Holds(m, f, addr, v, strict)
    ensures AllHold(m, Kids(m, f, addr, v), strict)
    decreases f
  {
    match f
    case U32 =>
    case Text(_) =>
    case Ptr(_, t) =>
    case Then(a, b) =>
      KidsHold(m, a, addr, v.a, strict);
      KidsHold(m, b, addr + Width(a), v.b, strict);
    case Container(e) =>
    case Union(arms) =>
      if v.level < |arms| { KidsHold(m, arms[v.level], addr + 1, v.arm, strict); }
  }

  lemma {:induction false} ElemKidsHold(m: Memory, e: Shape, addr: nat, vs: seq<Val>, strict: bool)
    requires TypedElems(e, vs) && HoldsElems(m, e, addr, vs, strict)
    ensures AllHold(m, ElemKids(m, e, addr, vs), strict)
  {
    hide Kids, Holds, HoldsC, Typed, TypedC, Width, Offset;
    if vs != [] {
      var n := |vs| - 1;
      ElemKidsHold(m, e, addr, vs[..n], strict);
      KidsHold(m, e, addr + Offset(e, n), vs[n], strict);
    }
  }

  /** What is stored, together with what was deferred, is the whole value. */
  lemma {:induction false} KidsComplete(m: Memory, f: Shape, addr: nat, v: Val)
    requires Typed(f, v) && Stores(m, f, addr, v) && AllHold(m, Kids(m, f, addr, v), true)
    ensures Holds(m, f, addr, v, true)
    decreases f
  {
    match f
    case U32 =>
    case Text(_) => assert Kids(m, f, addr, v)[0] == Item(Utf16z, addr, v);
    case Ptr(_, t) => assert Kids(m, f, addr, v)[0] == Item(Plain(t), addr, v);
    case Then(a, b) =>
      var p, q := Kids(m, a, addr, v.a), Kids(m, b, addr + Width(a), v.b);
      forall i | 0 <= i < |p| ensures HoldsC(m, p[i].coder, p[i].addr, p[i].val, true) { assert (p + q)[i] == p[i]; }
      forall i | 0 <= i < |q| ensures HoldsC(m, q[i].coder, q[i].addr, q[i].val, true) { assert (p + q)[|p| + i] == q[i]; }
      KidsComplete(m, a, addr, v.a);
      KidsComplete(m, b, addr + Width(a), v.b);
    case Container(e) =>
      if v.elems != [] {
        assert Kids(m, f, addr, v)[0] == Item(Carray(e), m[addr].first.value, v);
      }
    case Union(arms) =>
      if v.level < |arms| { KidsComplete(m, arms[v.level], addr + 1, v.arm); }
  }

  lemma {:induction false} ElemKidsComplete(m: Memory, e: Shape, addr: nat, vs: seq<Val>)
    requires TypedElems(e, vs) && StoresElems(m, e, addr, vs) && AllHold(m, ElemKids(m, e, addr, vs), true)
    ensures HoldsElems(m, e, addr, vs, true)
  {
    hide Kids, Holds, HoldsC, Stores, Typed, TypedC, Width, Offset;
    if vs != [] {
      var n := |vs| - 1;
      var p, q := ElemKids(m, e, addr, vs[..n]), Kids(m, e, addr + Offset(e, n), vs[n]);
      forall i | 0 <= i < |p| ensures HoldsC(m, p[i].coder, p[i].addr, p[i].val, true) { assert (p + q)[i] == p[i]; }
      forall i | 0 <= i < |q| ensures HoldsC(m, q[i].coder, q[i].addr, q[i].val, true) { assert (p + q)[|p| + i] == q[i]; }
      ElemKidsComplete(m, e, addr, vs[..n]);
      KidsComplete(m, e, addr + Offset(e, n), vs[n]);
      forall i | 0 <= i < |vs|
        ensures Holds(m, e, addr + Offset(e, i), vs[i], true)
      {
        if i < n { assert vs[..n][i] == vs[i]; }
      }
    }
  }

  lemma KidsCComplete(m: Memory, c: Coder, addr: nat, v: Val)
    requires TypedC(c, v) && StoresC(m, c, addr, v) && AllHold(m, KidsC(m, c, addr, v), true)
    ensures HoldsC(m, c, addr, v, true)
  {
    match c
    case Plain(f) => KidsComplete(m, f, addr, v);
    case Utf16z =>
    case Carray(e) => ElemKidsComplete(m, e, addr, v.elems);
  }

  // ----- Memory that is only ever filled in -----

  /** Cells that have been filled keep their contents; the memory may have grown. */
  ghost predicate Grown(m: Memory, m': Memory) {
    |m| <= |m'| && forall k | 0 <= k < |m| && m[k] != Zero :: m'[k] == m[k]
  }

  lemma {:induction false} GrownStores(m: Memory, m': Memory, f: Shape, addr: nat, v: Val)
    requires Typed(f, v) && Grown(m, m') && Stores(m, f, addr, v)
    ensures Stores(m', f, addr, v) && Kids(m', f, addr, v) == Kids(m, f, addr, v)
    decreases f
  {
    match f
    case U32 =>
    case Text(_) =>
    case Ptr(_, t) =>
    case Then(a, b) =>
      GrownStores(m, m', a, addr, v.a);
      GrownStores(m, m', b, addr + Width(a), v.b);
    case Container(e) =>
    case Union(arms) =>
      if v.level < |arms| { GrownStores(m, m', arms[v.level], addr + 1, v.arm); }
  }

  lemma GrownStoresElems(m: Memory, m': Memory, e: Shape, addr: nat, vs: seq<Val>)
    requires TypedElems(e, vs) && Grown(m, m') && StoresElems(m, e, addr, vs)
    ensures StoresElems(m', e, addr, vs)
  {
    forall i | 0 <= i < |vs|
      ensures Stores(m', e, addr + Offset(e, i), vs[i])
    {
      GrownStores(m, m', e, addr + Offset(e, i), vs[i]);
    }
  }

  lemma {:induction false} GrownElemKids(m: Memory, m': Memory, e: Shape, addr: nat, vs: seq<Val>)
    requires TypedElems(e, vs) && Grown(m, m') && StoresElems(m, e, addr, vs)
    ensures ElemKids(m', e, addr, vs) == ElemKids(m, e, addr, vs)
  {
    hide Width, Offset, Stores, Kids, Typed;
    if vs != [] {
      var n := |vs| - 1;
      GrownElemKids(m, m', e, addr, vs[..n]);
      GrownStores(m, m', e, addr + Offset(e, n), vs[n]);
    }
  }

  lemma GrownStoresC(m: Memory, m': Memory, c: Coder, addr: nat, v: Val)
    requires TypedC(c, v) && Grown(m, m') && StoresC(m, c, addr, v)
    ensures StoresC(m', c, addr, v) && KidsC(m', c, addr, v) == KidsC(m, c, addr, v)
  {
    match c
    case Plain(f) => GrownStores(m, m', f, addr, v);
    case Utf16z =>
    case Carray(e) =>
      GrownStoresElems(m, m', e, addr, v.elems);
      GrownElemKids(m, m', e, addr, v.elems);
  }

  lemma {:induction false} GrownHolds(m: Memory, m': Memory, f: Shape, addr: nat, v: Val, strict: bool)
    requires Typed(f, v) && Grown(m, m') && Holds(m, f, addr, v, strict)
    ensures Holds(m', f, addr, v, strict)
    decreases f, 0
  {
    hide Width, Offset;
    match f
    case U32 =>
    case Text(_) =>
    case Ptr(_, t) => GrownHolds(m, m', t, addr, v, strict);
    case Then(a, b) =>
      GrownHolds(m, m', a, addr, v.a, strict);
      GrownHolds(m, m', b, addr + Width(a), v.b, strict);
    case Container(e) =>
      if v.elems != [] { GrownHoldsElems(m, m', e, m[addr].first.value, v.elems, strict); }
    case Union(arms) =>
      if v.level < |arms| { GrownHolds(m, m', arms[v.level], addr + 1, v.arm, strict); }
  }

  lemma {:induction false} GrownHoldsElems(m: Memory, m': Memory, e: Shape, addr: nat, vs: seq<Val>, strict: bool)
    requires TypedElems(e, vs) && Grown(m, m') && HoldsElems(m, e, addr, vs, strict)
    ensures HoldsElems(m', e, addr, vs, strict)
    decreases e, 1
  {
    forall i | 0 <= i < |vs|
      ensures Holds(m', e, addr + Offset(e, i), vs[i], strict)
    {
      GrownHolds(m, m', e, addr + Offset(e, i), vs[i], strict);
    }
  }

  ghost predicate Blank(m: Memory, lo: nat, n: nat) {
    lo + n <= |m| && forall k | lo <= k < lo + n :: m[k] == Zero
  }

  function End(it: Item): nat
    requires TypedC(it.coder, it.val)
  {
    it.addr + WidthC(it.coder, it.val)
  }

  /** Referents that are still to be filled in: blank, and no two overlapping. */
  ghost predicate Ready(m: Memory, q: seq<Item>)
    requires TypedItems(q)
  {
    && (forall i | 0 <= i < |q| :: Blank(m, q[i].addr, WidthC(q[i].coder, q[i].val)))
    && (forall i, j | 0 <= i < j < |q| :: End(q[i]) <= q[j].addr || End(q[j]) <= q[i].addr)
  }

  /** Every referent lies in [lo, hi) or in memory allocated since the memory had size base. */
  ghost predicate Inside(q: seq<Item>, lo: nat, hi: nat, base: nat)
    requires TypedItems(q)
  {
    forall i | 0 <= i < |q| :: (lo <= q[i].addr && End(q[i]) <= hi) || base <= q[i].addr
  }

  /** Below base, only [lo, hi) may have changed. */
  ghost predicate Changed(m: Memory, m': Memory, lo: nat, hi: nat, base: nat) {
    base <= |m| <= |m'| && forall k | 0 <= k < base && !(lo <= k < hi) :: m'[k] == m[k]
  }

  /** Coding something in [lo, hi) fills blank cells only, and leaves the referents q to be filled in. */
  ghost predicate Part(m: Memory, m': Memory, lo: nat, hi: nat, q: seq<Item>)
    requires TypedItems(q)
  {
    && hi <= |m|
    && Changed(m, m', lo, hi, |m|) && Grown(m, m')
    && Ready(m', q) && Inside(q, lo, hi, |m|)
  }

  lemma PartThen(m0: Memory, m1: Memory, m2: Memory, lo: nat, mid: nat, hi: nat, p: seq<Item>, q: seq<Item>)
    requires TypedItems(p) && TypedItems(q) && lo <= mid <= hi <= |m0|
    requires Part(m0, m1, lo, mid, p) && Part(m1, m2, mid, hi, q)
    ensures Part(m0, m2, lo, hi, p + q)
  {
    hide WidthC;
    var r := p + q;
    forall i | 0 <= i < |r|
      ensures Blank(m2, r[i].addr, WidthC(r[i].coder, r[i].val))
    {
      if i < |p| {
        assert Blank(m1, p[i].addr, WidthC(p[i].coder, p[i].val));
      } else {
        assert r[i] == q[i - |p|];
      }
    }
    forall i, j | 0 <= i < j < |r|
      ensures End(r[i]) <= r[j].addr || End(r[j]) <= r[i].addr
    {
      if i < |p| { assert Blank(m1, p[i].addr, WidthC(p[i].coder, p[i].val)); }
      if j >= |p| { assert r[j] == q[j - |p|]; }
      if i >= |p| { assert r[i] == q[i - |p|]; }
    }
  }

  /** Coding the first referent of a queue, and deferring its own, leaves a queue that is again ready. */
  lemma NextReady(m: Memory, m': Memory, q: seq<Item>, kids: seq<Item>, lo: nat, hi: nat, base: nat)
    requires TypedItems(q) && TypedItems(kids) && q != [] && Ready(m, q) && Inside(q, lo, hi, base)
    requires base <= |m| && Part(m, m', q[0].addr, End(q[0]), kids)
    ensures Ready(m', q[1..] + kids) && Inside(q[1..] + kids, lo, hi, base)
    ensures Changed(m, m', lo, hi, base)
  {
    hide WidthC;
    var r := q[1..] + kids;
    forall i | 0 <= i < |q|
      ensures End(q[i]) <= |m|
    {
      assert Blank(m, q[i].addr, WidthC(q[i].coder, q[i].val));
    }
    forall i | 0 <= i < |r|
      ensures Blank(m', r[i].addr, WidthC(r[i].coder, r[i].val))
    {
      if i < |q| - 1 {
        assert r[i] == q[i + 1];
        assert Blank(m, q[i + 1].addr, WidthC(q[i + 1].coder, q[i + 1].val));
      } else {
        assert r[i] == kids[i - (|q| - 1)];
      }
    }
    forall i, j | 0 <= i < j < |r|
      ensures End(r[i]) <= r[j].addr || End(r[j]) <= r[i].addr
    {
      if i < |q| - 1 { assert r[i] == q[i + 1]; } else { assert r[i] == kids[i - (|q| - 1)]; }
      if j < |q| - 1 { assert r[j] == q[j + 1]; } else { assert r[j] == kids[j - (|q| - 1)]; }
    }
  }

  /** A coder has filled in its part of a value. */
  ghost predicate Filled(m: Memory, m': Memory, c: Coder, addr: nat, v: Val)
    requires TypedC(c, v)
  {
    StoresC(m', c, addr, v) && Part(m, m', addr, addr + WidthC(c, v), KidsC(m', c, addr, v))
  }

  /** Between its two runs, a string's pointer is swapped for its conversion. */
  function MidRun(decoding: bool, m: Memory, c: Coder, addr: nat, v: Val): Memory
    requires TypedC(c, v)
  {
    if c.Utf16z? && addr < |m| then
      m[addr := Swapped(Utf16(|v.text| + 1, 0, |v.text| + 1, if decoding then [] else v.text, StringOf(m, addr)))]
    else m
  }

  function StringOf(m: Memory, addr: nat): Option<Wide> {
    if addr < |m| && m[addr].Chars? then m[addr].text else None
  }

  function NumberOf(m: Memory, addr: nat): u32 {
    if addr < |m| && m[addr].Number? then m[addr].n else 0
  }

  function CountOf(m: Memory, addr: nat): u32 {
    if addr < |m| && m[addr].Counted? then m[addr].count else 0
  }

  function FirstOf(m: Memory, addr: nat): Option<nat> {
    if addr < |m| && m[addr].Counted? then m[addr].first else None
  }

  lemma StoresThen(m: Memory, a: Shape, b: Shape, addr: nat, v: Val)
    requires Typed(Then(a, b), v)
    ensures Stores(m, Then(a, b), addr, v) <==> Stores(m, a, addr, v.a) && Stores(m, b, addr + Width(a), v.b)
    ensures Kids(m, Then(a, b), addr, v) == Kids(m, a, addr, v.a) + Kids(m, b, addr + Width(a), v.b)
  {
  }

  lemma ThenFilled(m0: Memory, m1: Memory, m2: Memory, a: Shape, b: Shape, addr: nat, v: Val)
    requires Typed(Then(a, b), v) && Blank(m0, addr, Width(Then(a, b)))
    requires Filled(m0, m1, Plain(a), addr, v.a) && Filled(m1, m2, Plain(b), addr + Width(a), v.b)
    ensures Filled(m0, m2, Plain(Then(a, b)), addr, v)
    ensures Kids(m2, a, addr, v.a) == Kids(m1, a, addr, v.a)
  {
    hide Ready, Inside, Changed, Grown, Sizes, Refs, Kids, Stores;
    StoresThen(m2, a, b, addr, v);
    var p, q := Kids(m1, a, addr, v.a), Kids(m2, b, addr + Width(a), v.b);
    GrownStores(m1, m2, a, addr, v.a);
    PartThen(m0, m1, m2, addr, addr + Width(a), addr + Width(a) + Width(b),
             p, q);
  }

  lemma PartFirst(m0: Memory, m1: Memory, m2: Memory, addr: nat, cell: Cell, hi: nat, q: seq<Item>)
    requires TypedItems(q) && addr < hi <= |m0| && m0[addr] == Zero
    requires m1 == m0[addr := cell] && Part(m1, m2, addr + 1, hi, q)
    ensures Part(m0, m2, addr, hi, q)
  {
    PartThen(m0, m1, m2, addr, addr + 1, hi, [], q);
    assert [] + q == q;
  }

  lemma PartWider(m: Memory, m': Memory, lo: nat, hi: nat, top: nat, q: seq<Item>)
    requires TypedItems(q) && hi <= top <= |m| && Part(m, m', lo, hi, q)
    ensures Part(m, m', lo, top, q)
  {
  }

  lemma UnionFilled(m0: Memory, m1: Memory, m2: Memory, arms: seq<Shape>, addr: nat, v: Val)
    requires Typed(Union(arms), v) && v.level < |arms| && Blank(m0, addr, Width(Union(arms)))
    requires m1 == m0[addr := Number(v.level)]
    requires Filled(m1, m2, Plain(arms[v.level]), addr + 1, v.arm)
    ensures Filled(m0, m2, Plain(Union(arms)), addr, v)
  {
    hide Changed, Ready, Inside;
    var f := arms[v.level];
    var q := Kids(m2, f, addr + 1, v.arm);
    assert Width(f) <= MaxWidth(arms);
    PartFirst(m0, m1, m2, addr, Number(v.level), addr + 1 + Width(f), q);
    PartWider(m0, m2, addr, addr + 1 + Width(f), addr + Width(Union(arms)), q);
    assert m2[addr] == m1[addr];
  }

  /** What is to be coded: in memory when encoding, still blank when decoding; size_is is right for an array. */
  ghost predicate Source(dec: bool, m: Memory, size: int, c: Coder, addr: nat, v: Val) {
    && TypedC(c, v) && SizesC(c, v) <= 1 && (c.Carray? ==> size == |v.elems|)
    && if dec then Blank(m, addr, WidthC(c, v)) else HoldsC(m, c, addr, v, false)
  }

  /** Both directions have deferred the referents of the value, in order; the encoder has left the
      caller's memory as it was, the decoder has filled its part in. */
  ghost predicate Result(dec: bool, m0: Memory, p0: seq<Pointer>, size0: int,
                         m1: Memory, p1: seq<Pointer>, size1: int, c: Coder, addr: nat, v: Val)
    requires TypedC(c, v)
  {
    && p1 == p0 + Pointers(KidsC(m1, c, addr, v))
    && size1 == LastSizeC(c, v, size0)
    && if dec then Filled(m0, m1, c, addr, v) else m1 == m0
  }

  lemma SourceFacts(dec: bool, m: Memory, size: int, f: Shape, addr: nat, v: Val)
    requires Source(dec, m, size, Plain(f), addr, v)
    ensures Typed(f, v)
    ensures dec ==> addr < |m| && m[addr] == Zero
  {
    hide Holds;
  }

  lemma HoldsThen(m: Memory, a: Shape, b: Shape, addr: nat, v: Val)
    requires Typed(Then(a, b), v)
    ensures Holds(m, Then(a, b), addr, v, false) <==> Holds(m, a, addr, v.a, false) && Holds(m, b, addr + Width(a), v.b, false)
  {
  }

  lemma SourceFirst(dec: bool, m: Memory, size: int, a: Shape, b: Shape, addr: nat, v: Val)
    requires Source(dec, m, size, Plain(Then(a, b)), addr, v)
    ensures Source(dec, m, size, Plain(a), addr, v.a)
    ensures v.Pair? && Typed(a, v.a) && Typed(b, v.b)
    ensures |Refs(a, v.a)| <= |Refs(Then(a, b), v)|
    ensures forall n: int :: LastSize(Then(a, b), v, n) == LastSize(b, v.b, LastSize(a, v.a, n))
  {
  }

  lemma ThenFacts(s: Syntax, m: Memory, a: Shape, b: Shape, addr: nat)
    ensures Alignment(s, Then(a, b)) == Max(Alignment(s, a), Alignment(s, b))
    ensures Blank(m, addr, Width(Then(a, b))) ==> Blank(m, addr, Width(a)) && Blank(m, addr + Width(a), Width(b))
  {
  }

  lemma BodyThen(s: Syntax, a: Shape, b: Shape, v: Val, off: nat)
    requires Typed(Then(a, b), v)
    ensures Body(s, Then(a, b), v, off) == Body(s, a, v.a, off) + Body(s, b, v.b, off + |Body(s, a, v.a, off)|)
  {
    hide Int, Word, Level, Align;
  }

  lemma BodyContainer(s: Syntax, e: Shape, v: Val, off: nat)
    requires Typed(Container(e), v)
    ensures var x := Int(s, 4, off, |v.elems|);
            Body(s, Container(e), v, off) == x + Word(s, off + |x|, if |v.elems| == 0 then 0 else UPTR)
  {
    hide Int, Word, Level, Align;
  }

  lemma BodyUnion(s: Syntax, arms: seq<Shape>, v: Val, off: nat)
    requires Typed(Union(arms), v)
    ensures v.Alt?
    ensures v.level < |arms| ==> Typed(arms[v.level], v.arm) && |Refs(arms[v.level], v.arm)| == |Refs(Union(arms), v)|
    ensures var y := Level(s, off, v.level);
            Body(s, Union(arms), v, off) == if v.level < |arms| then y + Body(s, arms[v.level], v.arm, off + |y|) else y
  {
    hide Int, Word, Level, Align;
  }

  lemma UnionFacts(s: Syntax, m: Memory, arms: seq<Shape>, i: nat, addr: nat)
    requires i < |arms|
    ensures Alignment(s, arms[i]) <= WordSize(s)
    ensures Blank(m, addr, Width(Union(arms))) ==> Blank(m, addr + 1, Width(arms[i]))
  {
    AlignmentBound(s, arms[i]);
    assert Width(arms[i]) <= MaxWidth(arms);
  }

  /** When encoding, nothing changes between the two halves. */
  lemma SourceBoth(m: Memory, size: int, size1: int, a: Shape, b: Shape, addr: nat, v: Val)
    requires Source(false, m, size, Plain(Then(a, b)), addr, v)
    ensures Source(false, m, size, Plain(a), addr, v.a)
    ensures Source(false, m, size1, Plain(b), addr + Width(a), v.b)
  {
    hide Holds, Blank, Width;
    HoldsThen(m, a, b, addr, v);
  }

  lemma SourceSecond(dec: bool, m0: Memory, p0: seq<Pointer>, size0: int, m1: Memory, p1: seq<Pointer>, size1: int,
                     a: Shape, b: Shape, addr: nat, v: Val)
    requires Source(dec, m0, size0, Plain(Then(a, b)), addr, v)
    requires Result(dec, m0, p0, size0, m1, p1, size1, Plain(a), addr, v.a)
    ensures Source(dec, m1, size1, Plain(b), addr + Width(a), v.b)
    ensures |p1| + |Refs(b, v.b)| == |p0| + |Refs(Then(a, b), v)|
  {
    hide Holds, Stores, Kids, Pointers;
    if !dec { SourceBoth(m0, size0, size1, a, b, addr, v); }
    KidsAreRefs(m1, a, addr, v.a);
  }

  lemma ResultThen(dec: bool, m0: Memory, p0: seq<Pointer>, size0: int, m1: Memory, p1: seq<Pointer>, size1: int,
                   m2: Memory, p2: seq<Pointer>, size2: int, a: Shape, b: Shape, addr: nat, v: Val)
    requires Source(dec, m0, size0, Plain(Then(a, b)), addr, v)
    requires Result(dec, m0, p0, size0, m1, p1, size1, Plain(a), addr, v.a)
    requires Result(dec, m1, p1, size1, m2, p2, size2, Plain(b), addr + Width(a), v.b)
    ensures Result(dec, m0, p0, size0, m2, p2, size2, Plain(Then(a, b)), addr, v)
  {
    hide Part, Stores, Holds, Pointers, Blank, Kids, Refs, Sizes;
    StoresThen(m2, a, b, addr, v);
    if dec { ThenFilled(m0, m1, m2, a, b, addr, v); }
    PointersConcat(Kids(m2, a, addr, v.a), Kids(m2, b, addr + Width(a), v.b));
  }

  lemma SourceLevel(m: Memory, size: int, arms: seq<Shape>, addr: nat, v: Val)
    requires Source(false, m, size, Plain(Union(arms)), addr, v)
    ensures v.Alt? && addr < |m| && m[addr] == Number(v.level)
    ensures LastSize(Union(arms), v, size) == if v.level < |arms| then LastSize(arms[v.level], v.arm, size) else size
  {
  }

  lemma SourceArm(dec: bool, m0: Memory, m1: Memory, size: int, arms: seq<Shape>, addr: nat, v: Val)
    requires Source(dec, m0, size, Plain(Union(arms)), addr, v) && v.level < |arms|
    requires m1 == if dec then m0[addr := Number(v.level)] else m0
    ensures Source(dec, m1, size, Plain(arms[v.level]), addr + 1, v.arm)
  {
    assert Width(arms[v.level]) <= MaxWidth(arms);
  }

  lemma ResultUnion(dec: bool, m0: Memory, p0: seq<Pointer>, size0: int, m1: Memory, m2: Memory, p2: seq<Pointer>, size2: int,
                    arms: seq<Shape>, addr: nat, v: Val)
    requires Source(dec, m0, size0, Plain(Union(arms)), addr, v)
    requires m1 == if dec then m0[addr := Number(v.level)] else m0
    requires if v.level < |arms| then Result(dec, m1, p0, size0, m2, p2, size2, Plain(arms[v.level]), addr + 1, v.arm)
             else m2 == m1 && p2 == p0 && size2 == size0
    ensures Result(dec, m0, p0, size0, m2, p2, size2, Plain(Union(arms)), addr, v)
  {
    if dec && v.level < |arms| { UnionFilled(m0, m1, m2, arms, addr, v); }
  }

  // ----- Arrays, element by element -----

  ghost predicate ElemsResult(dec: bool, m0: Memory, p0: seq<Pointer>, m1: Memory, p1: seq<Pointer>, e: Shape, addr: nat, vs: seq<Val>)
    requires TypedElems(e, vs)
  {
    && p1 == p0 + Pointers(ElemKids(m1, e, addr, vs))
    && if dec then StoresElems(m1, e, addr, vs) && Part(m0, m1, addr, addr + Offset(e, |vs|), ElemKids(m1, e, addr, vs))
       else m1 == m0
  }

  lemma ElemsStart(dec: bool, m: Memory, p: seq<Pointer>, e: Shape, addr: nat, vs: seq<Val>)
    requires TypedElems(e, vs) && (dec ==> addr <= |m|)
    ensures ElemsResult(dec, m, p, m, p, e, addr, vs[..0])
  {
    assert p + Pointers([]) == p;
  }

  lemma ElemSource(dec: bool, m0: Memory, p0: seq<Pointer>, m1: Memory, p1: seq<Pointer>, size: int, e: Shape, addr: nat, v: Val, i: nat)
    requires Source(dec, m0, size, Carray(e), addr, v) && i < |v.elems|
    requires ElemsResult(dec, m0, p0, m1, p1, e, addr, v.elems[..i])
    ensures Source(dec, m1, size, Plain(e), addr + Offset(e, i), v.elems[i])
    ensures Sizes(e, v.elems[i]) == 0 && LastSize(e, v.elems[i], size) == size
    ensures |p1| + |Refs(e, v.elems[i])| <= |p0| + |ElemRefs(e, v.elems)|
  {
    hide Holds, Stores, Kids, Refs, Typed, Sizes, SizeSet, LastSize, Ready, Inside, Grown;
    ElemRefsSizes(e, v.elems, size);
    RefsSizes(e, v.elems[i], size);
    OffsetOrder(e, i, |v.elems|);
    ElemKidsAreRefs(m1, e, addr, v.elems[..i]);
    ElemRefsPrefix(e, v.elems, i);
  }

  lemma {:induction false} ElemRefsPrefix(e: Shape, vs: seq<Val>, i: nat)
    requires TypedElems(e, vs) && i < |vs|
    ensures |ElemRefs(e, vs[..i])| + |Refs(e, vs[i])| <= |ElemRefs(e, vs)|
  {
    hide Refs, Typed;
    var n := |vs| - 1;
    if i < n {
      ElemRefsPrefix(e, vs[..n], i);
      assert vs[..n][..i] == vs[..i];
    }
  }

  lemma ElemsStep(dec: bool, m0: Memory, p0: seq<Pointer>, m1: Memory, p1: seq<Pointer>, m2: Memory, p2: seq<Pointer>, size: int, size2: int,
                  e: Shape, addr: nat, vs: seq<Val>, i: nat)
    requires TypedElems(e, vs) && i < |vs| && (dec ==> Blank(m0, addr, Offset(e, |vs|)))
    requires ElemsResult(dec, m0, p0, m1, p1, e, addr, vs[..i])
    requires Result(dec, m1, p1, size, m2, p2, size2, Plain(e), addr + Offset(e, i), vs[i])
    ensures size2 == LastSize(e, vs[i], size)
    ensures ElemsResult(dec, m0, p0, m2, p2, e, addr, vs[..i + 1])
  {
    hide Holds, Stores, Kids, Typed, SizeSet, LastSize, Ready, Inside, Changed, Grown, Pointers;
    var p, q := ElemKids(m1, e, addr, vs[..i]), Kids(m2, e, addr + Offset(e, i), vs[i]);
    assert vs[..i + 1][..i] == vs[..i];
    if dec {
      OffsetOrder(e, i, |vs|);
      GrownStoresElems(m1, m2, e, addr, vs[..i]);
      GrownElemKids(m1, m2, e, addr, vs[..i]);
      PartThen(m0, m1, m2, addr, addr + Offset(e, i), addr + Offset(e, i + 1), p, q);
      forall k | 0 <= k < i + 1
        ensures Stores(m2, e, addr + Offset(e, k), vs[..i + 1][k])
      {
        if k < i { assert vs[..i][k] == vs[..i + 1][k]; }
      }
    }
    assert ElemKids(m2, e, addr, vs[..i + 1]) == p + q;
    PointersConcat(p, q);
  }

  lemma ElemsEnd(dec: bool, m0: Memory, p0: seq<Pointer>, m1: Memory, p1: seq<Pointer>, size: int, e: Shape, addr: nat, v: Val)
    requires Source(dec, m0, size, Carray(e), addr, v)
    requires ElemsResult(dec, m0, p0, m1, p1, e, addr, v.elems[..|v.elems|])
    ensures Result(dec, m0, p0, size, m1, p1, size, Carray(e), addr, v)
  {
    assert v.elems[..|v.elems|] == v.elems;
  }

  lemma ElemBlank(m: Memory, e: Shape, addr: nat, v: Val, i: nat)
    requires TypedC(Carray(e), v) && Blank(m, addr, WidthC(Carray(e), v)) && i < |v.elems|
    ensures Blank(m, addr + Offset(e, i), Width(e))
  {
    OffsetOrder(e, i, |v.elems|);
  }

  lemma ElemHeld(m: Memory, size: int, e: Shape, addr: nat, v: Val, i: nat)
    requires Source(false, m, size, Carray(e), addr, v) && i < |v.elems|
    ensures Source(false, m, size, Plain(e), addr + Offset(e, i), v.elems[i])
    ensures LastSize(e, v.elems[i], size) == size
  {
    hide Holds, Refs, Typed;
    ElemRefsSizes(e, v.elems, size);
    RefsSizes(e, v.elems[i], size);
  }

  lemma StringResult(dec: bool, m0: Memory, p: seq<Pointer>, size: int, m1: Memory, addr: nat, v: Val)
    requires Source(dec, m0, size, Utf16z, addr, v)
    requires m1 == if dec then m0[addr := Chars(Some(v.text))] else m0
    ensures Result(dec, m0, p, size, m1, p, size, Utf16z, addr, v)
  {
    assert p + Pointers([]) == p;
  }

  /** The conformance run of an encoder may already have set size_is; the data run sets it again. */
  lemma SourceAgain(dec: bool, m: Memory, size: int, c: Coder, addr: nat, v: Val)
    requires Source(dec, m, size, c, addr, v)
    ensures Source(dec, m, LastSizeC(c, v, size), c, addr, v)
    ensures LastSizeC(c, v, LastSizeC(c, v, size)) == LastSizeC(c, v, size)
  {
  }

  lemma ResultAgain(dec: bool, m0: Memory, p0: seq<Pointer>, size0: int, m1: Memory, p1: seq<Pointer>, size1: int, c: Coder, addr: nat, v: Val)
    requires TypedC(c, v) && Result(dec, m0, p0, LastSizeC(c, v, size0), m1, p1, size1, c, addr, v)
    ensures Result(dec, m0, p0, size0, m1, p1, size1, c, addr, v)
  {
  }

  lemma SourceTyped(dec: bool, m: Memory, size: int, c: Coder, addr: nat, v: Val)
    requires Source(dec, m, size, c, addr, v)
    ensures TypedC(c, v)
  {
  }

  lemma SourceBlank(m: Memory, size: int, c: Coder, addr: nat, v: Val)
    requires Source(true, m, size, c, addr, v) && !c.Carray?
    ensures Blank(m, addr, if c.Plain? then Width(c.shape) else 1)
  {
  }

  // ----- The queue of deferred referents -----

  /** Whoever completes the referents q in memory that grows from m completes the referents p. */
  ghost predicate Completes(m: Memory, q: seq<Item>, p: seq<Item>)
    requires TypedItems(q) && TypedItems(p)
  {
    forall m' :: Grown(m, m') && AllHold(m', q, true) ==> AllHold(m', p, true)
  }

  /** The first referent of a queue is complete once its own referents are. */
  lemma CompletesNext(m: Memory, m1: Memory, q: seq<Item>, p: seq<Item>, kids: seq<Item>)
    requires TypedItems(q) && TypedItems(p) && TypedItems(kids) && q != [] && Completes(m, q, p)
    requires Grown(m, m1) && StoresC(m1, q[0].coder, q[0].addr, q[0].val)
    requires kids == KidsC(m1, q[0].coder, q[0].addr, q[0].val)
    ensures Completes(m1, q[1..] + kids, p)
  {
    hide Kids, Stores, Holds, HoldsC, StoresC, KidsC, TypedC;
    var c, addr, v := q[0].coder, q[0].addr, q[0].val;
    var r := q[1..] + kids;
    forall m' | Grown(m1, m') && AllHold(m', r, true)
      ensures AllHold(m', p, true)
    {
      GrownStoresC(m1, m', c, addr, v);
      forall i | 0 <= i < |kids|
        ensures HoldsC(m', kids[i].coder, kids[i].addr, kids[i].val, true)
      {
        assert r[|q| - 1 + i] == kids[i];
      }
      KidsCComplete(m', c, addr, v);
      forall i | 0 <= i < |q|
        ensures HoldsC(m', q[i].coder, q[i].addr, q[i].val, true)
      {
        if i > 0 { assert r[i - 1] == q[i]; }
      }
      assert Grown(m, m');
    }
  }

  /** What a queue needs in order to be coded. */
  ghost predicate Queued(dec: bool, m: Memory, size: int, q: seq<Item>, lo: nat, hi: nat, base: nat) {
    && TypedItems(q) && OneSize(Forget(q), size)
    && if dec then Ready(m, q) && Inside(q, lo, hi, base) && base <= |m| else AllHold(m, q, false)
  }

  lemma QueueHead(dec: bool, m: Memory, size: int, q: seq<Item>, lo: nat, hi: nat, base: nat)
    requires Queued(dec, m, size, q, lo, hi, base) && q != []
    ensures Source(dec, m, size, q[0].coder, q[0].addr, q[0].val)
  {
    assert Forget(q)[0] == Deferred(q[0].coder, q[0].val);
  }

  lemma QueueNext(dec: bool, m: Memory, p0: seq<Pointer>, size: int, m1: Memory, p1: seq<Pointer>, size1: int,
                  q: seq<Item>, lo: nat, hi: nat, base: nat)
    requires Queued(dec, m, size, q, lo, hi, base) && q != []
    requires Result(dec, m, p0, size, m1, p1, size1, q[0].coder, q[0].addr, q[0].val)
    ensures var r := q[1..] + KidsC(m1, q[0].coder, q[0].addr, q[0].val);
            && Queued(dec, m1, size1, r, lo, hi, base)
            && Forget(r) == Forget(q)[1..] + RefsC(q[0].coder, q[0].val)
            && Pointers(r) == Pointers(q)[1..] + Pointers(KidsC(m1, q[0].coder, q[0].addr, q[0].val))
    ensures dec ==> Changed(m, m1, lo, hi, base)
  {
    hide Kids, Stores, Holds, Ready, Inside, Changed, Grown, OneSize, Refs, WidthC, Blank;
    var c, addr, v := q[0].coder, q[0].addr, q[0].val;
    var kids := KidsC(m1, c, addr, v);
    NextSize(Forget(q), size);
    KidsCAreRefs(m1, c, addr, v);
    ForgetConcat(q[1..], kids);
    assert Forget(q[1..]) == Forget(q)[1..];
    assert Pointers(q[1..]) == Pointers(q)[1..];
    PointersConcat(q[1..], kids);
    if dec {
      NextReady(m, m1, q, kids, lo, hi, base);
      ChangedSize(m, m1, lo, hi, base);
    } else {
      KidsCHold(m, c, addr, v);
      var r := q[1..] + kids;
      forall i | 0 <= i < |r|
        ensures HoldsC(m1, r[i].coder, r[i].addr, r[i].val, false)
      {
        if i < |q| - 1 { assert r[i] == q[i + 1]; } else { assert r[i] == kids[i - (|q| - 1)]; }
      }
    }
  }

  lemma KidsCHold(m: Memory, c: Coder, addr: nat, v: Val)
    requires TypedC(c, v) && HoldsC(m, c, addr, v, false)
    ensures AllHold(m, KidsC(m, c, addr, v), false)
  {
    match c
    case Plain(f) => KidsHold(m, f, addr, v, false);
    case Utf16z =>
    case Carray(e) => ElemKidsHold(m, e, addr, v.elems, false);
  }

  lemma ChangedSize(m: Memory, m1: Memory, lo: nat, hi: nat, base: nat)
    requires Changed(m, m1, lo, hi, base)
    ensures base <= |m1|
  {
  }

  lemma ChangedTwice(m: Memory, m1: Memory, m2: Memory, lo: nat, hi: nat, base: nat)
    requires Changed(m, m1, lo, hi, base) && Changed(m1, m2, lo, hi, base)
    ensures Changed(m, m2, lo, hi, base)
  {
  }

  lemma GrownTwice(m: Memory, m1: Memory, m2: Memory)
    requires Grown(m, m1) && Grown(m1, m2)
    ensures Grown(m, m2)
  {
  }

  lemma QueueStart(dec: bool, m: Memory, size: int, q: seq<Item>, lo: nat, hi: nat, base: nat)
    requires Queued(dec, m, size, q, lo, hi, base)
    ensures Completes(m, q, q)
    ensures Grown(m, m)
    ensures dec ==> Changed(m, m, lo, hi, base)
  {
  }

  lemma QueueEnd(dec: bool, m: Memory, q: seq<Item>, items: seq<Item>)
    requires TypedItems(items) && q == []
    ensures dec && Completes(m, q, items) ==> AllHold(m, items, true)
  {
    if dec && Completes(m, q, items) { assert Grown(m, m) && AllHold(m, q, true); }
  }

  lemma ResultParts(dec: bool, m0: Memory, p0: seq<Pointer>, size0: int,
                    m1: Memory, p1: seq<Pointer>, size1: int, c: Coder, addr: nat, v: Val)
    requires TypedC(c, v) && Result(dec, m0, p0, size0, m1, p1, size1, c, addr, v)
    ensures p1 == p0 + Pointers(KidsC(m1, c, addr, v))
    ensures if dec then Grown(m0, m1) && StoresC(m1, c, addr, v) else m1 == m0
  {
  }

  lemma {:induction false} PendingLength(q: seq<Deferred>)
    requires TypedRefs(q)
    ensures |q| <= Pending(q)
  {
    if q != [] { PendingLength(q[..|q| - 1]); }
  }

  lemma RefsWithin(c: Coder, v: Val)
    requires TypedC(c, v)
    ensures |RefsC(c, v)| <= NodesC(c, v)
  {
    RefsCPending(c, v);
    PendingLength(RefsC(c, v));
  }

  lemma QueueRoom(q: seq<Item>)
    requires TypedItems(q) && q != []
    ensures |q| + |RefsC(q[0].coder, q[0].val)| <= Pending(Forget(q))
  {
    PendingFirst(Forget(q));
    RefsWithin(q[0].coder, q[0].val);
    PendingLength(Forget(q)[1..]);
  }

  // ----- The top level -----

  /** A pointer at the top level: its referent has been coded, and what that deferred is the queue. */
  lemma TopQueue(dec: bool, m: Memory, p: seq<Pointer>, size: int, m1: Memory, p1: seq<Pointer>, size1: int, c: Coder, addr: nat, v: Val)
    requires Source(dec, m, size, c, addr, v)
    requires Result(dec, m, p, size, m1, p1, size1, c, addr, v)
    ensures var kids := KidsC(m1, c, addr, v);
            && Queued(dec, m1, size1, kids, addr, addr + WidthC(c, v), |m|)
            && Forget(kids) == RefsC(c, v)
            && p1[|p|..] == Pointers(kids)
            && Pending(Forget(kids)) == NodesC(c, v)
    ensures dec ==> Grown(m, m1) && Changed(m, m1, addr, addr + WidthC(c, v), |m|) && StoresC(m1, c, addr, v)
  {
    hide Kids, Stores, Holds, Ready, Inside, Changed, Grown, Refs, WidthC, Blank;
    var q := [Deferred(c, v)];
    NextSize(q, size);
    assert q[1..] + RefsC(c, v) == RefsC(c, v);
    KidsCAreRefs(m1, c, addr, v);
    RefsCPending(c, v);
    if dec {
      ChangedSize(m, m1, addr, addr + WidthC(c, v), |m|);
    } else {
      KidsCHold(m, c, addr, v);
    }
  }

  lemma TopComplete(m: Memory, m1: Memory, m2: Memory, c: Coder, addr: nat, v: Val)
    requires TypedC(c, v) && StoresC(m1, c, addr, v) && Grown(m, m1) && Grown(m1, m2)
    requires AllHold(m2, KidsC(m1, c, addr, v), true)
    requires Changed(m, m1, addr, addr + WidthC(c, v), |m|) && Changed(m1, m2, addr, addr + WidthC(c, v), |m|)
    ensures HoldsC(m2, c, addr, v, true) && Grown(m, m2) && Changed(m, m2, addr, addr + WidthC(c, v), |m|)
  {
    GrownStoresC(m1, m2, c, addr, v);
    KidsCComplete(m2, c, addr, v);
  }

  /** What coding a message leaves in memory. */
  ghost predicate Delivered(dec: bool, m: Memory, m1: Memory, f: Shape, addr: nat, v: Val)
    requires Typed(f, v)
  {
    if dec then Holds(m1, f, addr, v, true) && Grown(m, m1) && Changed(m, m1, addr, addr + Width(f), |m|) else m1 == m
  }

  /** What coding a message needs: the value when encoding, room for it when decoding. */
  ghost predicate Offered(dec: bool, m: Memory, f: Shape, addr: nat, v: Val)
    requires Typed(f, v)
  {
    if dec then Blank(m, addr, Width(f)) else Holds(m, f, addr, v, false)
  }

  lemma OfferedThen(dec: bool, m: Memory, m1: Memory, a: Shape, b: Shape, addr: nat, v: Val)
    requires Typed(Then(a, b), v) && Offered(dec, m, Then(a, b), addr, v)
    ensures Offered(dec, m, a, addr, v.a)
    ensures Delivered(dec, m, m1, a, addr, v.a) ==> Offered(dec, m1, b, addr + Width(a), v.b)
  {
    HoldsThen(m, a, b, addr, v);
  }

  lemma DeliveredThen(dec: bool, m: Memory, m1: Memory, m2: Memory, a: Shape, b: Shape, addr: nat, v: Val)
    requires Typed(Then(a, b), v) && Offered(dec, m, Then(a, b), addr, v)
    requires Delivered(dec, m, m1, a, addr, v.a) && Delivered(dec, m1, m2, b, addr + Width(a), v.b)
    ensures Delivered(dec, m, m2, Then(a, b), addr, v)
  {
    if dec {
      GrownHolds(m1, m2, a, addr, v.a, true);
      assert Holds(m2, Then(a, b), addr, v, true);
      assert Grown(m, m2);
      assert Changed(m, m2, addr, addr + Width(Then(a, b)), |m|) by { hide Holds; }
    }
  }

  lemma U32Offered(dec: bool, m: Memory, size: int, addr: nat, v: Val)
    requires v.Num? && Offered(dec, m, U32, addr, v)
    ensures Source(dec, m, size, Plain(U32), addr, v)
  {
  }

  lemma U32Delivered(dec: bool, m: Memory, p: seq<Pointer>, size: int, m1: Memory, addr: nat, v: Val)
    requires v.Num? && Result(dec, m, p, size, m1, p, size, Plain(U32), addr, v)
    ensures Delivered(dec, m, m1, U32, addr, v)
  {
  }

  lemma MessageIs(s: Syntax, f: Shape, v: Val, off: nat)
    requires TopLevel(f) && Typed(f, v)
    ensures f.U32? ==> Message(s, f, v, off) == Body(s, f, v, off)
    ensures f.Text? ==> Message(s, f, v, off) == Referred(s, f.kind, Utf16z, v, off)
    ensures f.Ptr? ==> Message(s, f, v, off) == Referred(s, f.kind, Plain(f.target), v, off)
    ensures f.Then? ==>
              var x := Message(s, f.first, v.a, off);
              Message(s, f, v, off) == x + Message(s, f.second, v.b, off + |x|)
  {
    hide Int, Referred;
  }

  // ----- Memory determines the value -----

  lemma {:induction false} HoldsUnique(m: Memory, f: Shape, addr: nat, v: Val, w: Val, p: bool, q: bool)
    requires Typed(f, v) && Typed(f, w) && Holds(m, f, addr, v, p) && Holds(m, f, addr, w, q)
    ensures v == w
    decreases f
  {
    hide Width, Offset;
    match f
    case U32 =>
    case Text(_) =>
    case Ptr(_, t) => HoldsUnique(m, t, addr, v, w, p, q);
    case Then(a, b) =>
      HoldsUnique(m, a, addr, v.a, w.a, p, q);
      HoldsUnique(m, b, addr + Width(a), v.b, w.b, p, q);
    case Container(e) =>
      forall i | 0 <= i < |v.elems|
        ensures v.elems[i] == w.elems[i]
      {
        HoldsUnique(m, e, m[addr].first.value + Offset(e, i), v.elems[i], w.elems[i], p, q);
      }
    case Union(arms) =>
      if v.level < |arms| { HoldsUnique(m, arms[v.level], addr + 1, v.arm, w.arm, p, q); }
  }

  /** A string does not come back as it was exactly when it was NULL: then it comes back empty. */
  lemma NullStringComesBackEmpty(m: Memory, addr: nat, m': Memory, addr': nat, kind: Kind, v: Val)
    requires Typed(Text(kind), v) && Holds(m, Text(kind), addr, v, false) && Holds(m', Text(kind), addr', v, true)
    ensures m[addr] == m'[addr'] <==> m[addr].text.Some?
    ensures m[addr].text.None? ==> m'[addr'] == Chars(Some([]))
  {
  }
}
