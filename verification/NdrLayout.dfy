/** The wire form of NDR, chapter 14 of C706, as a list of numbers, each at a multiple of its own size: what the octets
    of a message are without the functions that the coders are proved against. */
module NdrLayout {
  import opened Wrappers
  import opened Octets
  import opened Numbers
  import opened NdrGrammar

  /** A number of so many octets, aligned to its size; or the alignment alone. */
  datatype Part = Put(width: nat, number: nat) | Pad(width: nat)

  predicate IsWidth(n: nat) {
    n == 2 || n == 4 || n == 8
  }

  predicate Sound(items: seq<Part>) {
    forall i :: 0 <= i < |items| ==> IsWidth(items[i].width) || (items[i].Pad? && items[i].width == 1)
  }

  /** How many octets are skipped to the next multiple. */
  function Skipped(off: nat, width: nat): nat
    requires width > 0
  {
    (width - off % width) % width
  }

  /** The octets of a number by their weights. */
  function NumberOctets(little: bool, width: nat, x: nat): (o: Out)
    ensures |o| == width
  {
    seq(width, k requires 0 <= k < width => Some(x / Pow256(if little then k else width - 1 - k) % 256))
  }

  function ItemOut(little: bool, item: Part, off: nat): (o: Out)
    requires item.width > 0
  {
    var skipped: Out := seq(Skipped(off, item.width), _ => None);
    match item
    case Put(width, x) => skipped + NumberOctets(little, width, x)
    case Pad(_) => skipped
  }

  /** The items one after another. */
  function Laid(little: bool, items: seq<Part>, off: nat): (o: Out)
    requires Sound(items)
  {
    if items == [] then []
    else
      var x := ItemOut(little, items[0], off);
      x + Laid(little, items[1..], off + |x|)
  }

  // ----- Alignment and numbers -----

  /** The least multiple that is not before the offset. */
  lemma AlignLeast(off: nat, n: nat)
    requires IsWidth(n)
    ensures Align(off, n) % n == 0 && off <= Align(off, n) < off + n
  {
  }

  lemma AlignSkips(off: nat, n: nat)
    requires n == 1 || IsWidth(n)
    ensures Align(off, n) == off + Skipped(off, n)
  {
  }

  lemma GapIsPad(little: bool, off: nat, n: nat)
    requires n == 1 || IsWidth(n)
    ensures Gap(Align(off, n) - off) == ItemOut(little, Pad(n), off)
  {
    hide Align, Skipped;
    AlignSkips(off, n);
  }

  lemma StoredIsNumber(little: bool, n: nat, x: nat)
    ensures Octs(Stored(little, n, x)) == NumberOctets(little, n, x)
  {
    hide Stored, Pow256;
    forall k | 0 <= k < n
      ensures Stored(little, n, x)[k] == x / Pow256(if little then k else n - 1 - k) % 256
    {
      StoredAt(little, n, x, if little then k else n - 1 - k);
    }
  }

  lemma IntIsItem(s: Syntax, n: nat, off: nat, x: nat)
    requires IsWidth(n)
    ensures Int(s, n, off, x) == ItemOut(s.little, Put(n, x), off)
  {
    hide Align, Skipped, Stored, NumberOctets;
    AlignSkips(off, n);
    StoredIsNumber(s.little, n, x);
  }

  function WordItem(s: Syntax, x: nat): Part {
    if s.ndr64 then Put(8, x % 0x1_0000_0000_0000_0000) else Put(4, x % 0x1_0000_0000)
  }

  lemma WordIsItem(s: Syntax, off: nat, x: nat)
    ensures Word(s, off, x) == ItemOut(s.little, WordItem(s, x), off)
  {
    hide Int, ItemOut, Pow256;
    Pow256Values();
    IntIsItem(s, WordSize(s), off, x % Pow256(WordSize(s)));
  }

  // ----- Lists -----

  lemma {:induction false} LaidConcat(little: bool, a: seq<Part>, b: seq<Part>, off: nat)
    requires Sound(a) && Sound(b)
    ensures Laid(little, a + b, off) == Laid(little, a, off) + Laid(little, b, off + |Laid(little, a, off)|)
  {
    hide ItemOut;
    if a == [] {
      assert a + b == b;
    } else {
      var x := ItemOut(little, a[0], off);
      assert (a + b)[1..] == a[1..] + b;
      LaidConcat(little, a[1..], b, off + |x|);
    }
  }

  lemma LaidOne(little: bool, item: Part, off: nat)
    requires (item.width == 1 && item.Pad?) || IsWidth(item.width)
    ensures Sound([item]) && Laid(little, [item], off) == ItemOut(little, item, off)
  {
    hide ItemOut;
    assert [item][1..] == [];
  }

  lemma LaidTwo(little: bool, a: Part, b: Part, off: nat)
    requires IsWidth(a.width) && IsWidth(b.width)
    ensures Sound([a, b])
    ensures var x := ItemOut(little, a, off);
      Laid(little, [a, b], off) == x + ItemOut(little, b, off + |x|)
  {
    hide ItemOut;
    LaidOne(little, b, off + |ItemOut(little, a, off)|);
    assert [a, b][1..] == [b];
  }

  // ----- The numbers of a grammar's values -----

  function BodyItems(s: Syntax, f: Shape, v: Val): (r: seq<Part>)
    requires Typed(f, v)
    ensures Sound(r)
    decreases f
  {
    match f
    case U32 => [Put(4, v.n)]
    case Text(k) => [WordItem(s, Referent(k))]
    case Ptr(k, _) => [WordItem(s, Referent(k))]
    case Then(a, b) => BodyItems(s, a, v.a) + BodyItems(s, b, v.b)
    case Container(_) => [Put(4, |v.elems|), WordItem(s, if v.elems == [] then 0 else UPTR)]
    case Union(arms) =>
      [Put(4, v.level), WordItem(s, v.level)]
      + if v.level < |arms| then BodyItems(s, arms[v.level], v.arm) else []
  }

  function ElemsItems(s: Syntax, e: Shape, vs: seq<Val>): (r: seq<Part>)
    requires TypedElems(e, vs)
    ensures Sound(r)
  {
    if vs == [] then [] else ElemsItems(s, e, vs[..|vs| - 1]) + BodyItems(s, e, vs[|vs| - 1])
  }

  function UnitsItems(us: seq<u16>): (r: seq<Part>)
    ensures Sound(r)
  {
    seq(|us|, i requires 0 <= i < |us| => Put(2, us[i]))
  }

  function ConfItems(s: Syntax, c: Coder, v: Val): (r: seq<Part>)
    requires TypedC(c, v)
    ensures Sound(r)
  {
    match c
    case Plain(_) => []
    case Utf16z => [WordItem(s, |v.text| + 1), WordItem(s, 0), WordItem(s, |v.text| + 1)]
    case Carray(_) => [WordItem(s, |v.elems|)]
  }

  function BodyCItems(s: Syntax, c: Coder, v: Val): (r: seq<Part>)
    requires TypedC(c, v)
    ensures Sound(r)
  {
    match c
    case Plain(f) => BodyItems(s, f, v)
    case Utf16z => UnitsItems(Terminated(v.text))
    case Carray(e) => ElemsItems(s, e, v.elems)
  }

  function ConstructItems(s: Syntax, c: Coder, v: Val): (r: seq<Part>)
    requires TypedC(c, v)
    ensures Sound(r)
  {
    AlignmentCIs(s, c, v);
    ConfItems(s, c, v) + [Pad(AlignmentC(s, c, v))] + BodyCItems(s, c, v)
  }

  lemma AlignmentCIs(s: Syntax, c: Coder, v: Val)
    requires TypedC(c, v)
    ensures AlignmentC(s, c, v) == 1 || IsWidth(AlignmentC(s, c, v))
  {
    match c
    case Plain(f) => AlignmentBound(s, f);
    case Utf16z =>
    case Carray(e) => AlignmentBound(s, e);
  }

  function DrainItems(s: Syntax, q: seq<Deferred>): (r: seq<Part>)
    requires TypedRefs(q)
    ensures Sound(r)
    decreases Pending(q)
  {
    if q == [] then []
    else
      NextPending(q);
      ConstructItems(s, q[0].coder, q[0].val) + DrainItems(s, q[1..] + RefsC(q[0].coder, q[0].val))
  }

  function ReferredItems(s: Syntax, kind: Kind, c: Coder, v: Val): (r: seq<Part>)
    requires TypedC(c, v)
    ensures Sound(r)
  {
    (if kind == Ref then [] else [WordItem(s, UPTR)]) + ConstructItems(s, c, v) + DrainItems(s, RefsC(c, v))
  }

  function MessageItems(s: Syntax, f: Shape, v: Val): (r: seq<Part>)
    requires TopLevel(f) && Typed(f, v)
    ensures Sound(r)
  {
    match f
    case U32 => [Put(4, v.n)]
    case Text(k) => ReferredItems(s, k, Utf16z, v)
    case Ptr(k, t) => ReferredItems(s, k, Plain(t), v)
    case Then(a, b) => MessageItems(s, a, v.a) + MessageItems(s, b, v.b)
  }

  // ----- They are what the coders put on the wire -----

  lemma {:induction false} BodyLaid(s: Syntax, f: Shape, v: Val, off: nat)
    requires Typed(f, v)
    ensures Body(s, f, v, off) == Laid(s.little, BodyItems(s, f, v), off)
    decreases f
  {
    hide Int, Word, Laid, ItemOut, WordItem;
    match f
    case U32 => NumberLaid(s, v.n, off);
    case Text(k) => WordLaid(s, Referent(k), off);
    case Ptr(k, _) => WordLaid(s, Referent(k), off);
    case Then(a, b) =>
      BodyLaid(s, a, v.a, off);
      BodyLaid(s, b, v.b, off + |Body(s, a, v.a, off)|);
      LaidConcat(s.little, BodyItems(s, a, v.a), BodyItems(s, b, v.b), off);
    case Container(_) => NumberThenWord(s, |v.elems|, if v.elems == [] then 0 else UPTR, off);
    case Union(arms) =>
      NumberThenWord(s, v.level, v.level, off);
      if v.level < |arms| {
        BodyLaid(s, arms[v.level], v.arm, off + |Level(s, off, v.level)|);
        LaidConcat(s.little, [Put(4, v.level), WordItem(s, v.level)], BodyItems(s, arms[v.level], v.arm), off);
      } else {
        assert BodyItems(s, f, v) == [Put(4, v.level), WordItem(s, v.level)];
      }
  }

  lemma NumberLaid(s: Syntax, x: nat, off: nat)
    ensures Int(s, 4, off, x) == Laid(s.little, [Put(4, x)], off)
  {
    hide Int, ItemOut, Laid;
    IntIsItem(s, 4, off, x);
    LaidOne(s.little, Put(4, x), off);
  }

  lemma WordLaid(s: Syntax, x: nat, off: nat)
    ensures Sound([WordItem(s, x)]) && Word(s, off, x) == Laid(s.little, [WordItem(s, x)], off)
  {
    hide Word, ItemOut, Laid;
    WordIsItem(s, off, x);
    LaidOne(s.little, WordItem(s, x), off);
  }

  lemma NumberThenWord(s: Syntax, x: nat, y: nat, off: nat)
    ensures Sound([Put(4, x), WordItem(s, y)])
    ensures var a := Int(s, 4, off, x);
      a + Word(s, off + |a|, y) == Laid(s.little, [Put(4, x), WordItem(s, y)], off)
  {
    hide Int, Word, ItemOut, Laid;
    IntIsItem(s, 4, off, x);
    WordIsItem(s, off + |Int(s, 4, off, x)|, y);
    LaidTwo(s.little, Put(4, x), WordItem(s, y), off);
  }

  lemma {:induction false} ElemsLaid(s: Syntax, e: Shape, vs: seq<Val>, off: nat)
    requires TypedElems(e, vs)
    ensures Elems(s, e, vs, off) == Laid(s.little, ElemsItems(s, e, vs), off)
  {
    hide Body, BodyItems, Typed, Laid, Sound;
    if vs == [] {
      LaidNothing(s.little, off);
    } else {
      var n := |vs| - 1;
      ElemsLaid(s, e, vs[..n], off);
      BodyLaid(s, e, vs[n], off + |Elems(s, e, vs[..n], off)|);
      LaidConcat(s.little, ElemsItems(s, e, vs[..n]), BodyItems(s, e, vs[n]), off);
    }
  }

  lemma {:induction false} UnitsLaid(s: Syntax, us: seq<u16>, off: nat)
    ensures Units(s, us, off) == Laid(s.little, UnitsItems(us), off)
  {
    hide Int, ItemOut, Laid;
    if us == [] {
      LaidNothing(s.little, off);
    } else {
      var n := |us| - 1;
      UnitsLaid(s, us[..n], off);
      var at := off + |Units(s, us[..n], off)|;
      IntIsItem(s, 2, at, us[n]);
      LaidOne(s.little, Put(2, us[n]), at);
      LaidConcat(s.little, UnitsItems(us[..n]), [Put(2, us[n])], off);
      assert UnitsItems(us) == UnitsItems(us[..n]) + [Put(2, us[n])];
    }
  }

  lemma LaidNothing(little: bool, off: nat)
    ensures Laid(little, [], off) == []
  {
  }

  lemma ConfLaid(s: Syntax, c: Coder, v: Val, off: nat)
    requires TypedC(c, v)
    ensures Conf(s, c, v, off) == Laid(s.little, ConfItems(s, c, v), off)
  {
    hide Word, Laid, ItemOut, WordItem, Typed;
    match c
    case Plain(_) => LaidNothing(s.little, off);
    case Utf16z =>
      var n, a, b := |v.text| + 1, WordItem(s, |v.text| + 1), WordItem(s, 0);
      WordLaid(s, n, off);
      var at := off + |Word(s, off, n)|;
      WordLaid(s, 0, at);
      LaidConcat(s.little, [a], [b], off);
      var at2 := at + |Word(s, at, 0)|;
      WordLaid(s, n, at2);
      LaidConcat(s.little, [a] + [b], [a], off);
      assert [a] + [b] + [a] == ConfItems(s, c, v);
    case Carray(_) => WordLaid(s, |v.elems|, off);
  }

  lemma BodyCLaid(s: Syntax, c: Coder, v: Val, off: nat)
    requires TypedC(c, v)
    ensures BodyC(s, c, v, off) == Laid(s.little, BodyCItems(s, c, v), off)
  {
    match c
    case Plain(f) => BodyLaid(s, f, v, off);
    case Utf16z => UnitsLaid(s, Terminated(v.text), off);
    case Carray(e) => ElemsLaid(s, e, v.elems, off);
  }

  lemma ConstructLaid(s: Syntax, c: Coder, v: Val, off: nat)
    requires TypedC(c, v)
    ensures Construct(s, c, v, off) == Laid(s.little, ConstructItems(s, c, v), off)
  {
    hide Conf, ConfItems, BodyC, BodyCItems, AlignmentC, Align, Laid, ItemOut, TypedC;
    AlignmentCIs(s, c, v);
    var n := AlignmentC(s, c, v);
    var x := Conf(s, c, v, off);
    var at := off + |x|;
    ConfLaid(s, c, v, off);
    GapIsPad(s.little, at, n);
    LaidOne(s.little, Pad(n), at);
    LaidConcat(s.little, ConfItems(s, c, v), [Pad(n)], off);
    var y := x + Gap(Align(at, n) - at);
    BodyCLaid(s, c, v, off + |y|);
    LaidConcat(s.little, ConfItems(s, c, v) + [Pad(n)], BodyCItems(s, c, v), off);
  }

  lemma {:induction false} DrainLaid(s: Syntax, q: seq<Deferred>, off: nat)
    requires TypedRefs(q)
    ensures Drain(s, q, off) == Laid(s.little, DrainItems(s, q), off)
    decreases Pending(q)
  {
    hide Construct, ConstructItems, RefsC, TypedC, Laid;
    if q == [] {
      LaidNothing(s.little, off);
    } else {
      NextPending(q);
      var c, v := q[0].coder, q[0].val;
      var x := Construct(s, c, v, off);
      ConstructLaid(s, c, v, off);
      DrainLaid(s, q[1..] + RefsC(c, v), off + |x|);
      LaidConcat(s.little, ConstructItems(s, c, v), DrainItems(s, q[1..] + RefsC(c, v)), off);
    }
  }

  lemma ReferredLaid(s: Syntax, kind: Kind, c: Coder, v: Val, off: nat)
    requires TypedC(c, v)
    ensures Referred(s, kind, c, v, off) == Laid(s.little, ReferredItems(s, kind, c, v), off)
  {
    hide Construct, ConstructItems, Drain, DrainItems, RefsC, TypedC, Laid, Word, WordItem;
    var p: seq<Part> := if kind == Ref then [] else [WordItem(s, UPTR)];
    WordLaid(s, UPTR, off);
    LaidNothing(s.little, off);
    var x: Out := if kind == Ref then [] else Word(s, off, UPTR);
    var y := x + Construct(s, c, v, off + |x|);
    ConstructLaid(s, c, v, off + |x|);
    LaidConcat(s.little, p, ConstructItems(s, c, v), off);
    DrainLaid(s, RefsC(c, v), off + |y|);
    LaidConcat(s.little, p + ConstructItems(s, c, v), DrainItems(s, RefsC(c, v)), off);
  }

  /** A message is its numbers, laid one after another. */
  lemma {:induction false} MessageLaid(s: Syntax, f: Shape, v: Val, off: nat)
    requires TopLevel(f) && Typed(f, v)
    ensures Message(s, f, v, off) == Laid(s.little, MessageItems(s, f, v), off)
  {
    hide Int, Referred, ReferredItems, Laid;
    match f
    case U32 => NumberLaid(s, v.n, off);
    case Text(k) => ReferredLaid(s, k, Utf16z, v, off);
    case Ptr(k, t) => ReferredLaid(s, k, Plain(t), v, off);
    case Then(a, b) =>
      MessageLaid(s, a, v.a, off);
      MessageLaid(s, b, v.b, off + |Message(s, a, v.a, off)|);
      LaidConcat(s.little, MessageItems(s, a, v.a), MessageItems(s, b, v.b), off);
  }
}
