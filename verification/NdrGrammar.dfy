/** What the NDR coders of lib/dcerpc.c put on the wire, for every value of every grammar that
    lib/dcerpc-srvsvc.c can build from them. */
module NdrGrammar {
  import opened Wrappers
  import opened Octets
  import opened Numbers

  /** A character of a C string after conversion to UTF-16: any code unit but NUL. */
  type Unit = x: int | 0 < x < 0x1_0000 witness 1
  type Wide = seq<Unit>

  datatype Kind = Ref | Unique

  /** A coder that has no conformance of its own. `Text` is a pointer to a NUL-terminated string,
      `Container` a count followed by a unique pointer to that many elements, `Union` a level followed
      by the union it selects. */
  datatype Shape =
    | U32
    | Text(kind: Kind)
    | Ptr(kind: Kind, target: Shape)
    | Then(first: Shape, second: Shape)
    | Container(elem: Shape)
    | Union(arms: seq<Shape>)

  /** What a pointer may refer to. */
  datatype Coder = Plain(shape: Shape) | Utf16z | Carray(elem: Shape)

  /** The text of a NULL string is empty. */
  datatype Val =
    | Num(n: u32)
    | Str(text: Wide)
    | Pair(a: Val, b: Val)
    | Arr(elems: seq<Val>)
    | Alt(level: u32, arm: Val)

  predicate Typed(f: Shape, v: Val) {
    match f
    case U32 => v.Num?
    case Text(_) => v.Str? && |v.text| < 0x7fff_ffff
    case Ptr(_, t) => Typed(t, v)
    case Then(a, b) => v.Pair? && Typed(a, v.a) && Typed(b, v.b)
    case Container(e) => v.Arr? && |v.elems| < 0x8000_0000 && forall i | 0 <= i < |v.elems| :: Typed(e, v.elems[i])
    case Union(arms) => v.Alt? && if v.level < |arms| then Typed(arms[v.level], v.arm) else v.arm == Num(0)
  }

  predicate TypedElems(e: Shape, vs: seq<Val>) {
    forall i | 0 <= i < |vs| :: Typed(e, vs[i])
  }

  predicate TypedC(c: Coder, v: Val) {
    match c
    case Plain(f) => Typed(f, v)
    case Utf16z => v.Str? && |v.text| < 0x7fff_ffff
    case Carray(e) => v.Arr? && |v.elems| < 0x8000_0000 && TypedElems(e, v.elems)
  }

  /** The transfer syntax and the byte order of a PDU. */
  datatype Syntax = Syntax(ndr64: bool, little: bool)

  const RPTR: u64 := 0x5270_7472_7274_7052
  const UPTR: u64 := 0x5570_7472_7274_7055

  function WordSize(s: Syntax): nat {
    if s.ndr64 then 8 else 4
  }

  function Align(off: nat, n: nat): (r: nat)
    ensures off <= r
  {
    if n == 8 then (off + 7) / 8 * 8
    else if n == 4 then (off + 3) / 4 * 4
    else if n == 2 then (off + 1) / 2 * 2
    else off
  }

  // ----- Output: octets that are written, and the octets between them that are skipped -----

  type Out = seq<Option<u8>>

  function Gap(n: nat): (o: Out)
    ensures |o| == n
  {
    seq(n, _ => None)
  }

  function Octs(b: seq<u8>): (o: Out)
    ensures |o| == |b|
  {
    seq(|b|, i requires 0 <= i < |b| => Some(b[i]))
  }

  /** An n-octet integer at the next multiple of n. */
  function Int(s: Syntax, n: nat, off: nat, x: nat): (o: Out)
    ensures |o| == Align(off, n) - off + n
  {
    Gap(Align(off, n) - off) + Octs(Stored(s.little, n, x))
  }

  /** A word whose size depends on the transfer syntax. */
  function Word(s: Syntax, off: nat, x: nat): (o: Out)
    ensures |o| >= WordSize(s)
  {
    Int(s, WordSize(s), off, x % Pow256(WordSize(s)))
  }

  function Referent(kind: Kind): u64 {
    if kind == Ref then RPTR else UPTR
  }

  /** The level of a union, and the discriminant that repeats it. */
  function Level(s: Syntax, off: nat, level: u32): (o: Out)
    ensures |o| > 0
  {
    var x := Int(s, 4, off, level);
    x + Word(s, off + |x|, level)
  }

  function Body(s: Syntax, f: Shape, v: Val, off: nat): (o: Out)
    requires Typed(f, v)
    ensures |o| > 0
    decreases f
  {
    match f
    case U32 => Int(s, 4, off, v.n)
    case Text(k) => Word(s, off, Referent(k))
    case Ptr(k, _) => Word(s, off, Referent(k))
    case Then(a, b) =>
      var x := Body(s, a, v.a, off);
      x + Body(s, b, v.b, off + |x|)
    case Container(_) =>
      var x := Int(s, 4, off, |v.elems|);
      x + Word(s, off + |x|, if v.elems == [] then 0 else UPTR)
    case Union(arms) =>
      var y := Level(s, off, v.level);
      if v.level < |arms| then y + Body(s, arms[v.level], v.arm, off + |y|) else y
  }

  function Elems(s: Syntax, e: Shape, vs: seq<Val>, off: nat): (o: Out)
    requires TypedElems(e, vs)
  {
    if vs == [] then []
    else
      var n := |vs| - 1;
      var x := Elems(s, e, vs[..n], off);
      x + Body(s, e, vs[n], off + |x|)
  }

  function Units(s: Syntax, us: seq<u16>, off: nat): (o: Out) {
    if us == [] then []
    else
      var n := |us| - 1;
      var x := Units(s, us[..n], off);
      x + Int(s, 2, off + |x|, us[n])
  }

  function Terminated(text: Wide): (us: seq<u16>)
    ensures |us| == |text| + 1
  {
    var us: seq<u16> := seq(|text|, i requires 0 <= i < |text| => text[i] as u16);
    us + [0]
  }

  function Conf(s: Syntax, c: Coder, v: Val, off: nat): (o: Out)
    requires TypedC(c, v)
  {
    match c
    case Plain(_) => []
    case Utf16z =>
      var x := Word(s, off, |v.text| + 1);
      var y := x + Word(s, off + |x|, 0);
      y + Word(s, off + |y|, |v.text| + 1)
    case Carray(_) => Word(s, off, |v.elems|)
  }

  function Alignment(s: Syntax, f: Shape): nat {
    match f
    case U32 => 4
    case Then(a, b) => Max(Alignment(s, a), Alignment(s, b))
    case _ => WordSize(s)
  }

  lemma {:induction false} AlignmentBound(s: Syntax, f: Shape)
    ensures Alignment(s, f) == 4 || Alignment(s, f) == WordSize(s)
  {
    match f
    case Then(a, b) =>
      AlignmentBound(s, a);
      AlignmentBound(s, b);
    case _ =>
  }

  function AlignmentC(s: Syntax, c: Coder, v: Val): nat
    requires TypedC(c, v)
  {
    match c
    case Plain(f) => Alignment(s, f)
    case Utf16z => 2
    case Carray(e) => if v.elems == [] then 1 else Alignment(s, e)
  }

  function BodyC(s: Syntax, c: Coder, v: Val, off: nat): (o: Out)
    requires TypedC(c, v)
  {
    match c
    case Plain(f) => Body(s, f, v, off)
    case Utf16z => Units(s, Terminated(v.text), off)
    case Carray(e) => Elems(s, e, v.elems, off)
  }

  /** One construct: its conformance, the alignment of its data, its data. */
  function Construct(s: Syntax, c: Coder, v: Val, off: nat): (o: Out)
    requires TypedC(c, v)
  {
    var x := Conf(s, c, v, off);
    var at := off + |x|;
    var y := x + Gap(Align(at, AlignmentC(s, c, v)) - at);
    y + BodyC(s, c, v, off + |y|)
  }

  // ----- Deferred referents -----

  /** A referent that waits to be coded. */
  datatype Deferred = Deferred(coder: Coder, val: Val)

  predicate TypedRefs(q: seq<Deferred>) {
    forall i | 0 <= i < |q| :: TypedC(q[i].coder, q[i].val)
  }

  /** The referents that coding a shape defers, in order. */
  function Refs(f: Shape, v: Val): (q: seq<Deferred>)
    requires Typed(f, v)
    ensures TypedRefs(q)
    decreases f
  {
    match f
    case U32 => []
    case Text(_) => [Deferred(Utf16z, v)]
    case Ptr(_, t) => [Deferred(Plain(t), v)]
    case Then(a, b) => Refs(a, v.a) + Refs(b, v.b)
    case Container(e) => if v.elems == [] then [] else [Deferred(Carray(e), v)]
    case Union(arms) => if v.level < |arms| then Refs(arms[v.level], v.arm) else []
  }

  function ElemRefs(e: Shape, vs: seq<Val>): (q: seq<Deferred>)
    requires TypedElems(e, vs)
    ensures TypedRefs(q)
  {
    if vs == [] then [] else ElemRefs(e, vs[..|vs| - 1]) + Refs(e, vs[|vs| - 1])
  }

  function RefsC(c: Coder, v: Val): (q: seq<Deferred>)
    requires TypedC(c, v)
    ensures TypedRefs(q)
  {
    match c
    case Plain(f) => Refs(f, v)
    case Utf16z => []
    case Carray(e) => ElemRefs(e, v.elems)
  }

  /** The number of pointers below a value: how many referents coding it defers in all. */
  function Nodes(f: Shape, v: Val): nat
    requires Typed(f, v)
    decreases f, 0, 0
  {
    match f
    case U32 => 0
    case Text(_) => 1
    case Ptr(_, t) => 1 + Nodes(t, v)
    case Then(a, b) => Nodes(a, v.a) + Nodes(b, v.b)
    case Container(e) => if v.elems == [] then 0 else 1 + ElemNodes(e, v.elems)
    case Union(arms) => if v.level < |arms| then Nodes(arms[v.level], v.arm) else 0
  }

  function ElemNodes(e: Shape, vs: seq<Val>): nat
    requires TypedElems(e, vs)
    decreases e, 1, |vs|
  {
    if vs == [] then 0 else ElemNodes(e, vs[..|vs| - 1]) + Nodes(e, vs[|vs| - 1])
  }

  function NodesC(c: Coder, v: Val): nat
    requires TypedC(c, v)
  {
    match c
    case Plain(f) => Nodes(f, v)
    case Utf16z => 0
    case Carray(e) => ElemNodes(e, v.elems)
  }

  /** The pointers in a queue of referents, the referents themselves included. */
  function Pending(q: seq<Deferred>): nat
    requires TypedRefs(q)
  {
    if q == [] then 0 else Pending(q[..|q| - 1]) + 1 + NodesC(q[|q| - 1].coder, q[|q| - 1].val)
  }

  lemma {:induction false} PendingConcat(p: seq<Deferred>, q: seq<Deferred>)
    requires TypedRefs(p) && TypedRefs(q)
    ensures Pending(p + q) == Pending(p) + Pending(q)
  {
    if q == [] {
      assert p + q == p;
    } else {
      assert (p + q)[..|p + q| - 1] == p + q[..|q| - 1];
      PendingConcat(p, q[..|q| - 1]);
    }
  }

  lemma PendingFirst(q: seq<Deferred>)
    requires TypedRefs(q) && q != []
    ensures Pending(q) == 1 + NodesC(q[0].coder, q[0].val) + Pending(q[1..])
  {
    assert q == [q[0]] + q[1..];
    assert [q[0]][..0] == [];
    PendingConcat([q[0]], q[1..]);
  }

  /** Deferring loses no pointer and invents none. */
  lemma {:induction false} RefsPending(f: Shape, v: Val)
    requires Typed(f, v)
    ensures Pending(Refs(f, v)) == Nodes(f, v)
    decreases f, 0, 0
  {
    match f
    case U32 =>
    case Text(_) => PendingFirst(Refs(f, v));
    case Ptr(_, t) => PendingFirst(Refs(f, v));
    case Then(a, b) =>
      RefsPending(a, v.a);
      RefsPending(b, v.b);
      PendingConcat(Refs(a, v.a), Refs(b, v.b));
    case Container(e) =>
      if v.elems != [] { PendingFirst(Refs(f, v)); }
    case Union(arms) =>
      if v.level < |arms| { RefsPending(arms[v.level], v.arm); }
  }

  lemma {:induction false} ElemRefsPending(e: Shape, vs: seq<Val>)
    requires TypedElems(e, vs)
    ensures Pending(ElemRefs(e, vs)) == ElemNodes(e, vs)
  {
    if vs != [] {
      var n := |vs| - 1;
      ElemRefsPending(e, vs[..n]);
      RefsPending(e, vs[n]);
      PendingConcat(ElemRefs(e, vs[..n]), Refs(e, vs[n]));
    }
  }

  lemma RefsCPending(c: Coder, v: Val)
    requires TypedC(c, v)
    ensures Pending(RefsC(c, v)) == NodesC(c, v)
  {
    match c
    case Plain(f) => RefsPending(f, v);
    case Utf16z =>
    case Carray(e) => ElemRefsPending(e, v.elems);
  }

  lemma NextPending(q: seq<Deferred>)
    requires TypedRefs(q) && q != []
    ensures Pending(q[1..] + RefsC(q[0].coder, q[0].val)) == Pending(q) - 1
  {
    PendingFirst(q);
    RefsCPending(q[0].coder, q[0].val);
    PendingConcat(q[1..], RefsC(q[0].coder, q[0].val));
  }

  /** Coding a queue of referents first in, first out, each adding its own referents at the end. */
  function Drain(s: Syntax, q: seq<Deferred>, off: nat): (o: Out)
    requires TypedRefs(q)
    decreases Pending(q)
  {
    if q == [] then []
    else
      NextPending(q);
      var x := Construct(s, q[0].coder, q[0].val, off);
      x + Drain(s, q[1..] + RefsC(q[0].coder, q[0].val), off + |x|)
  }

  /** What may be coded at the top level: integers and pointers, each pointer followed at once by its
      referent and by everything that coding the referent defers. */
  predicate TopLevel(f: Shape) {
    match f
    case U32 => true
    case Text(_) => true
    case Ptr(_, _) => true
    case Then(a, b) => TopLevel(a) && TopLevel(b)
    case _ => false
  }

  function Referred(s: Syntax, kind: Kind, c: Coder, v: Val, off: nat): (o: Out)
    requires TypedC(c, v)
  {
    var x := if kind == Ref then [] else Word(s, off, UPTR);
    var y := x + Construct(s, c, v, off + |x|);
    y + Drain(s, RefsC(c, v), off + |y|)
  }

  function Message(s: Syntax, f: Shape, v: Val, off: nat): (o: Out)
    requires TopLevel(f) && Typed(f, v)
  {
    match f
    case U32 => Int(s, 4, off, v.n)
    case Text(k) => Referred(s, k, Utf16z, v, off)
    case Ptr(k, t) => Referred(s, k, Plain(t), v, off)
    case Then(a, b) =>
      var x := Message(s, a, v.a, off);
      x + Message(s, b, v.b, off + |x|)
  }

  // ----- size_is: one slot in the PDU, shared by every container -----

  /** The size that coding a value leaves in size_is, if it sets one. */
  function SizeSet(f: Shape, v: Val): Option<nat>
    requires Typed(f, v)
    decreases f
  {
    match f
    case Then(a, b) =>
      var n := SizeSet(b, v.b);
      if n.Some? then n else SizeSet(a, v.a)
    case Container(_) => if v.elems == [] then None else Some(|v.elems|)
    case Union(arms) => if v.level < |arms| then SizeSet(arms[v.level], v.arm) else None
    case _ => None
  }

  function LastSize(f: Shape, v: Val, n: int): int
    requires Typed(f, v)
  {
    var size := SizeSet(f, v);
    if size.Some? then size.value else n
  }

  /** How many non-empty containers lie below a value. */
  function Sizes(f: Shape, v: Val): nat
    requires Typed(f, v)
    decreases f, 0, 0
  {
    match f
    case U32 => 0
    case Text(_) => 0
    case Ptr(_, t) => Sizes(t, v)
    case Then(a, b) => Sizes(a, v.a) + Sizes(b, v.b)
    case Container(e) => if v.elems == [] then 0 else 1 + ElemSizes(e, v.elems)
    case Union(arms) => if v.level < |arms| then Sizes(arms[v.level], v.arm) else 0
  }

  function ElemSizes(e: Shape, vs: seq<Val>): nat
    requires TypedElems(e, vs)
    decreases e, 1, |vs|
  {
    if vs == [] then 0 else ElemSizes(e, vs[..|vs| - 1]) + Sizes(e, vs[|vs| - 1])
  }

  function SizesC(c: Coder, v: Val): nat
    requires TypedC(c, v)
  {
    match c
    case Plain(f) => Sizes(f, v)
    case Utf16z => 0
    case Carray(e) => 1 + ElemSizes(e, v.elems)
  }

  /** At most one array waits for its size, and size_is is that size. */
  ghost predicate OneSize(q: seq<Deferred>, n: int)
    requires TypedRefs(q)
  {
    && (forall i, j | 0 <= i < j < |q| :: SizesC(q[i].coder, q[i].val) == 0 || SizesC(q[j].coder, q[j].val) == 0)
    && (forall i | 0 <= i < |q| :: SizesC(q[i].coder, q[i].val) <= 1)
    && (forall i | 0 <= i < |q| && q[i].coder.Carray? :: |q[i].val.elems| == n)
  }

  lemma {:induction false} RefsSizes(f: Shape, v: Val, n: int)
    requires Typed(f, v) && Sizes(f, v) <= 1
    ensures OneSize(Refs(f, v), LastSize(f, v, n))
    ensures Sizes(f, v) == 0 ==> LastSize(f, v, n) == n
    ensures Sizes(f, v) == 0 ==> forall r | r in Refs(f, v) :: SizesC(r.coder, r.val) == 0
    decreases f
  {
    match f
    case U32 =>
    case Text(_) =>
    case Ptr(_, t) =>
    case Then(a, b) =>
      RefsSizes(a, v.a, n);
      RefsSizes(b, v.b, LastSize(a, v.a, n));
    case Container(e) =>
    case Union(arms) =>
      if v.level < |arms| { RefsSizes(arms[v.level], v.arm, n); }
  }

  lemma {:induction false} ElemRefsSizes(e: Shape, vs: seq<Val>, n: int)
    requires TypedElems(e, vs) && ElemSizes(e, vs) == 0
    ensures OneSize(ElemRefs(e, vs), n)
    ensures forall r | r in ElemRefs(e, vs) :: SizesC(r.coder, r.val) == 0
    ensures forall i | 0 <= i < |vs| :: Sizes(e, vs[i]) == 0
  {
    hide Refs, Sizes, SizesC, Typed;
    if vs != [] {
      ElemRefsSizes(e, vs[..|vs| - 1], n);
      RefsSizes(e, vs[|vs| - 1], n);
    }
  }

  function LastSizeC(c: Coder, v: Val, n: int): int
    requires TypedC(c, v)
  {
    if c.Plain? then LastSize(c.shape, v, n) else n
  }

  /** Coding the first referent of a queue and deferring its own referents keeps size_is right for
      whichever array is still to come. */
  lemma NextSize(q: seq<Deferred>, n: int)
    requires TypedRefs(q) && q != [] && OneSize(q, n)
    ensures OneSize(q[1..] + RefsC(q[0].coder, q[0].val), LastSizeC(q[0].coder, q[0].val, n))
  {
    var c, v := q[0].coder, q[0].val;
    match c
    case Plain(f) => RefsSizes(f, v, n);
    case Utf16z =>
    case Carray(e) => ElemRefsSizes(e, v.elems, n);
    var kids := RefsC(c, v);
    var n' := LastSizeC(c, v, n);
    assert OneSize(kids, n');
    assert SizesC(c, v) == 0 || c.Carray? ==> forall i | 0 <= i < |kids| :: SizesC(kids[i].coder, kids[i].val) == 0;
    forall i | 1 <= i < |q| && SizesC(c, v) != 0
      ensures SizesC(q[i].coder, q[i].val) == 0
    {
    }
  }

  /** Below each pointer of the top level there is at most one non-empty array: size_is has one slot. */
  predicate OneArray(f: Shape, v: Val)
    requires Typed(f, v)
  {
    match f
    case Ptr(_, t) => Sizes(t, v) <= 1
    case Then(a, b) => OneArray(a, v.a) && OneArray(b, v.b)
    case _ => true
  }

  /** How many referents a message defers: those of the top level are coded at once. */
  function Deferrals(f: Shape, v: Val): nat
    requires Typed(f, v)
  {
    match f
    case Ptr(_, t) => Nodes(t, v)
    case Then(a, b) => Deferrals(a, v.a) + Deferrals(b, v.b)
    case _ => 0
  }
}
