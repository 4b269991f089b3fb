/** Buffers that hold an output, and how outputs compose. */
module NdrWire {
  import opened Wrappers
  import opened Octets
  import opened Numbers
  import opened NdrGrammar

  /** The buffer after an output has been written at an offset: skipped octets keep what they held. */
  function Written(b: seq<u8>, off: nat, out: Out): (r: seq<u8>)
    ensures |r| == |b|
  {
    seq(|b|, i requires 0 <= i < |b| => if off <= i < off + |out| && out[i - off].Some? then out[i - off].value else b[i])
  }

  /** The buffer holds an output, or as much of it as fits: writing it again would change nothing. */
  ghost predicate Match(b: seq<u8>, off: nat, out: Out) {
    Written(b, off, out) == b
  }

  lemma WrittenMatches(b: seq<u8>, off: nat, out: Out)
    ensures Match(Written(b, off, out), off, out)
  {
  }

  lemma MatchAt(b: seq<u8>, off: nat, out: Out, i: nat)
    requires Match(b, off, out) && i < |out| && off + i < |b| && out[i].Some?
    ensures b[off + i] == out[i].value
  {
    assert Written(b, off, out)[off + i] == out[i].value;
  }

  lemma MatchSplit(b: seq<u8>, off: nat, x: Out, y: Out)
    requires Match(b, off, x + y)
    ensures Match(b, off, x) && Match(b, off + |x|, y)
  {
    forall k | 0 <= k < |b|
      ensures Written(b, off, x)[k] == b[k] && Written(b, off + |x|, y)[k] == b[k]
    {
      assert Written(b, off, x + y)[k] == b[k];
    }
  }

  lemma MatchFrame(b: seq<u8>, b': seq<u8>, off: nat, out: Out)
    requires |b| == |b'| && (off <= |b| ==> b[off..] == b'[off..]) && Match(b, off, out)
    ensures Match(b', off, out)
  {
    forall k | 0 <= k < |b|
      ensures Written(b', off, out)[k] == b'[k]
    {
      assert Written(b, off, out)[k] == b[k];
      if off <= k { assert b[k] == b[off..][k - off] == b'[off..][k - off] == b'[k]; }
    }
  }

  /** A decoding step up to `to` leaves whatever lies at or beyond it. */
  lemma MatchLater(b: seq<u8>, b': seq<u8>, to: nat, off: nat, out: Out)
    requires |b| == |b'| && to <= off && (to <= |b| ==> b[to..] == b'[to..]) && Match(b, off, out)
    ensures Match(b', off, out)
  {
    if off <= |b| { assert b[off..] == b[to..][off - to..] == b'[to..][off - to..] == b'[off..]; }
    MatchFrame(b, b', off, out);
  }

  /** One coding step. It succeeds exactly when its output fits; then the offset has moved past the
      output. An encoder has written just the output; a decoder may have rewritten what it has consumed,
      but nothing beyond. */
  ghost predicate Coded(dec: bool, b0: seq<u8>, off0: nat, ok: bool, b1: seq<u8>, off1: nat, out: Out) {
    && |b1| == |b0|
    && (ok <==> off0 + |out| <= |b0|)
    && (ok ==> off1 == off0 + |out|)
    && (ok && dec ==> b1[off1..] == b0[off1..])
    && (ok && !dec ==> b1 == Written(b0, off0, out))
  }

  lemma WrittenConcat(b: seq<u8>, off: nat, x: Out, y: Out)
    ensures Written(Written(b, off, x), off + |x|, y) == Written(b, off, x + y)
  {
  }

  lemma CodedThen(dec: bool, b0: seq<u8>, off0: nat, b1: seq<u8>, off1: nat, ok: bool, b2: seq<u8>, off2: nat, x: Out, y: Out)
    requires Coded(dec, b0, off0, true, b1, off1, x)
    requires Coded(dec, b1, off1, ok, b2, off2, y)
    ensures Coded(dec, b0, off0, ok, b2, off2, x + y)
  {
    WrittenConcat(b0, off0, x, y);
    if ok && dec {
      assert b2[off2..] == b1[off2..] == b1[off1..][off2 - off1..] == b0[off1..][off2 - off1..] == b0[off2..];
    }
  }

  /** After the first of two outputs, the second is next. */
  lemma Advance(dec: bool, b0: seq<u8>, off0: nat, b1: seq<u8>, off1: nat, x: Out, y: Out)
    requires Coded(dec, b0, off0, true, b1, off1, x)
    requires dec ==> Match(b0, off0, x + y)
    ensures off1 == off0 + |x| <= |b0| == |b1|
    ensures dec ==> Match(b1, off1, y)
  {
    if dec {
      MatchSplit(b0, off0, x, y);
      MatchLater(b0, b1, off1, off1, y);
    }
  }

  lemma CodedFails(dec: bool, b0: seq<u8>, off0: nat, b1: seq<u8>, off1: nat, x: Out, y: Out)
    requires Coded(dec, b0, off0, false, b1, off1, x)
    ensures Coded(dec, b0, off0, false, b1, off1, x + y)
  {
  }

  lemma WrittenNothing(b: seq<u8>, off: nat)
    ensures Written(b, off, []) == b
  {
  }

  lemma CodedFits(dec: bool, b0: seq<u8>, off0: nat, ok: bool, b1: seq<u8>, off1: nat, out: Out)
    requires Coded(dec, b0, off0, ok, b1, off1, out)
    ensures ok <==> off0 + |out| <= |b0|
    ensures ok ==> off1 == off0 + |out|
  {
  }

  lemma CodedNothing(dec: bool, b: seq<u8>, off: nat)
    requires off <= |b|
    ensures Coded(dec, b, off, true, b, off, [])
  {
    WrittenNothing(b, off);
  }

  /** A step, a gap that may reach past the end of the buffer, and another step. */
  lemma GapThen(dec: bool, b0: seq<u8>, off0: nat, b1: seq<u8>, off1: nat, ok: bool, b2: seq<u8>, off2: nat, x: Out, n: nat, y: Out)
    requires Coded(dec, b0, off0, true, b1, off1, x)
    requires Coded(dec, b1, off1 + n, ok, b2, off2, y)
    ensures Coded(dec, b0, off0, ok, b2, off2, x + (Gap(n) + y))
  {
    if ok {
      CodedGap(dec, b1, off1, n);
      CodedThen(dec, b1, off1, b1, off1 + n, ok, b2, off2, Gap(n), y);
      CodedThen(dec, b0, off0, b1, off1, ok, b2, off2, x, Gap(n) + y);
    }
  }

  lemma AlignmentPositive(s: Syntax, c: Coder, v: Val)
    requires TypedC(c, v)
    ensures Max(1, AlignmentC(s, c, v)) == AlignmentC(s, c, v)
  {
    match c
    case Plain(f) => AlignmentBound(s, f);
    case Utf16z =>
    case Carray(e) => AlignmentBound(s, e);
  }

  /** Aligning moves the offset over octets that are not touched. */
  lemma CodedGap(dec: bool, b: seq<u8>, off: nat, n: nat)
    requires off + n <= |b|
    ensures Coded(dec, b, off, true, b, off + n, Gap(n))
  {
  }

  /** Reading back an integer that the buffer holds. */
  lemma MatchInt(s: Syntax, b: seq<u8>, off: nat, n: nat, x: nat)
    requires x < Pow256(n) && Match(b, off, Int(s, n, off, x)) && Align(off, n) + n <= |b|
    ensures Loaded(s.little, b[Align(off, n)..Align(off, n) + n]) == x
  {
    hide Align, Stored, Loaded;
    var at := Align(off, n);
    var out := Int(s, n, off, x);
    forall k | 0 <= k < n ensures b[at + k] == Stored(s.little, n, x)[k] {
      assert out[at - off + k] == Some(Stored(s.little, n, x)[k]);
      MatchAt(b, off, out, at - off + k);
    }
    assert b[at..at + n] == Stored(s.little, n, x);
    StoredRoundTrip(s.little, n, x);
  }

  /** The text before the first NUL. */
  function UntilNul(us: seq<u16>): (w: Wide)
  {
    if us == [] || us[0] == 0 then []
    else
      var u: Unit := us[0];
      [u] + UntilNul(us[1..])
  }

  lemma {:induction false} UntilNulTerminated(text: Wide)
    ensures UntilNul(Terminated(text)) == text
  {
    if text != [] {
      UntilNulTerminated(text[1..]);
      assert Terminated(text)[1..] == Terminated(text[1..]);
    }
  }

  lemma {:induction false} UnitsEven(s: Syntax, us: seq<u16>, off: nat)
    requires off % 2 == 0
    ensures |Units(s, us, off)| == 2 * |us|
  {
    hide Align, Gap, Octs, Stored;
    if us != [] {
      UnitsEven(s, us[..|us| - 1], off);
      AlignEven(off + |Units(s, us[..|us| - 1], off)|);
    }
  }

  lemma AlignEven(at: nat)
    requires at % 2 == 0
    ensures Align(at, 2) == at
  {
  }

  lemma MatchUnit(s: Syntax, b: seq<u8>, at: nat, u: u16)
    requires at % 2 == 0 && at + 2 <= |b| && Match(b, at, Int(s, 2, at, u))
    ensures Loaded(s.little, [b[at], b[at + 1]]) == u
  {
    AlignEven(at);
    Pow256Values();
    MatchInt(s, b, at, 2, u);
    assert b[at..at + 2] == [b[at], b[at + 1]];
  }

  /** In a string, code unit k is stored at twice k from the start. */
  lemma {:induction false} MatchUnits(s: Syntax, b: seq<u8>, us: seq<u16>, off: nat, k: nat)
    requires off % 2 == 0 && k < |us|
    requires Match(b, off, Units(s, us, off)) && off + 2 * |us| <= |b|
    ensures Loaded(s.little, [b[off + 2 * k], b[off + 2 * k + 1]]) == us[k]
  {
    hide Align, Stored, Written, Loaded, Gap, Octs;
    var n := |us| - 1;
    var x := Units(s, us[..n], off);
    MatchSplit(b, off, x, Int(s, 2, off + |x|, us[n]));
    UnitsEven(s, us[..n], off);
    if k == n {
      MatchUnit(s, b, off + |x|, us[n]);
    } else {
      MatchUnits(s, b, us[..n], off, k);
    }
  }

  lemma {:induction false} UnitsGrow(s: Syntax, us: seq<u16>, n: nat, off: nat)
    requires n <= |us|
    ensures |Units(s, us[..n], off)| <= |Units(s, us, off)|
  {
    if n == |us| {
      assert us[..n] == us;
    } else {
      assert us[..|us| - 1][..n] == us[..n];
      UnitsGrow(s, us[..|us| - 1], n, off);
    }
  }

  lemma ElemsSnoc(s: Syntax, e: Shape, vs: seq<Val>, i: nat, off: nat)
    requires TypedElems(e, vs) && i < |vs|
    ensures var x := Elems(s, e, vs[..i], off);
            Elems(s, e, vs[..i + 1], off) == x + Body(s, e, vs[i], off + |x|)
  {
    hide Body, Typed;
    assert vs[..i + 1][..i] == vs[..i];
  }

  /** What is left of an array's output once i elements are out. */
  function ElemsFrom(s: Syntax, e: Shape, vs: seq<Val>, i: nat, off: nat): (o: Out)
    requires TypedElems(e, vs) && i <= |vs|
    decreases |vs| - i
  {
    if i == |vs| then []
    else
      var x := Body(s, e, vs[i], off);
      x + ElemsFrom(s, e, vs, i + 1, off + |x|)
  }

  lemma {:induction false} ElemsSplit(s: Syntax, e: Shape, vs: seq<Val>, i: nat, off: nat)
    requires TypedElems(e, vs) && i <= |vs|
    ensures var x := Elems(s, e, vs[..i], off);
            Elems(s, e, vs, off) == x + ElemsFrom(s, e, vs, i, off + |x|)
    decreases |vs| - i
  {
    hide Body, Typed;
    if i == |vs| {
      assert vs[..i] == vs;
    } else {
      ElemsSnoc(s, e, vs, i, off);
      ElemsSplit(s, e, vs, i + 1, off);
      var x := Elems(s, e, vs[..i], off);
      var y := Body(s, e, vs[i], off + |x|);
      var z := ElemsFrom(s, e, vs, i + 1, off + |x + y|);
      assert (x + y) + z == x + (y + z);
    }
  }

  /** The next element of an array is next in the buffer. */
  lemma ElemNext(s: Syntax, dec: bool, b0: seq<u8>, off0: nat, b1: seq<u8>, off1: nat, e: Shape, vs: seq<Val>, i: nat)
    requires TypedElems(e, vs) && i < |vs|
    requires dec ==> Match(b0, off0, Elems(s, e, vs, off0))
    requires Coded(dec, b0, off0, true, b1, off1, Elems(s, e, vs[..i], off0))
    ensures dec ==> Match(b1, off1, Body(s, e, vs[i], off1))
  {
    hide Body, Typed, Coded, Match;
    var x := Elems(s, e, vs[..i], off0);
    ElemsSplit(s, e, vs, i, off0);
    Advance(dec, b0, off0, b1, off1, x, ElemsFrom(s, e, vs, i, off0 + |x|));
    var y := Body(s, e, vs[i], off1);
    if dec { MatchSplit(b1, off1, y, ElemsFrom(s, e, vs, i + 1, off1 + |y|)); }
  }

  lemma ElemCoded(s: Syntax, dec: bool, b0: seq<u8>, off0: nat, b1: seq<u8>, off1: nat, ok: bool, b2: seq<u8>, off2: nat,
                  e: Shape, vs: seq<Val>, i: nat)
    requires TypedElems(e, vs) && i < |vs|
    requires Coded(dec, b0, off0, true, b1, off1, Elems(s, e, vs[..i], off0))
    requires Coded(dec, b1, off1, ok, b2, off2, Body(s, e, vs[i], off1))
    ensures ok ==> Coded(dec, b0, off0, true, b2, off2, Elems(s, e, vs[..i + 1], off0))
    ensures !ok ==> Coded(dec, b0, off0, false, b2, off2, Elems(s, e, vs, off0))
  {
    hide Body, Typed, Written;
    var x, y := Elems(s, e, vs[..i], off0), Body(s, e, vs[i], off1);
    ElemsSnoc(s, e, vs, i, off0);
    CodedThen(dec, b0, off0, b1, off1, ok, b2, off2, x, y);
    if !ok {
      var z := ElemsFrom(s, e, vs, i + 1, off0 + |x + y|);
      ElemsSplit(s, e, vs, i, off0);
      assert Elems(s, e, vs, off0) == x + (y + z) == (x + y) + z;
      CodedFails(dec, b0, off0, b2, off2, x + y, z);
    }
  }

  lemma AlignMultiple(off: nat, n: nat)
    requires n == 4 || n == 8
    ensures Align(off, n) % n == 0
  {
  }

  lemma AlignNothing(at: nat, n: nat, m: nat)
    requires (n == 4 || n == 8) && at % n == 0 && (m == 1 || m == 2 || m == 4 || m == n)
    ensures Align(at, m) == at && at % 2 == 0
  {
  }

  lemma WordEnds(s: Syntax, off: nat, x: nat)
    ensures (off + |Word(s, off, x)|) % WordSize(s) == 0
  {
    AlignMultiple(off, WordSize(s));
  }

  /** Conformance words leave the data of a string or an array aligned: there is no gap before it. */
  lemma NoGap(s: Syntax, c: Coder, v: Val, off: nat)
    requires TypedC(c, v) && !c.Plain?
    ensures var at := off + |Conf(s, c, v, off)|; Align(at, AlignmentC(s, c, v)) == at && at % 2 == 0
  {
    hide Align, Int, Pow256, Typed, Word;
    var at := off + |Conf(s, c, v, off)|;
    if c.Utf16z? {
      var x := Word(s, off, |v.text| + 1);
      var y := x + Word(s, off + |x|, 0);
      WordEnds(s, off + |y|, |v.text| + 1);
      assert (off + |y|) + |Word(s, off + |y|, |v.text| + 1)| == at;
    } else {
      WordEnds(s, off, |v.elems|);
      AlignmentBound(s, c.elem);
    }
    AlignNothing(at, WordSize(s), AlignmentC(s, c, v));
  }

  /** The three parts of a construct, one after the other. */
  lemma ConstructParts(s: Syntax, c: Coder, v: Val, off: nat)
    requires TypedC(c, v)
    ensures var x := Conf(s, c, v, off);
            var at := off + |x|;
            var g := Gap(Align(at, AlignmentC(s, c, v)) - at);
            Construct(s, c, v, off) == x + (g + BodyC(s, c, v, at + |g|))
  {
    hide Conf, BodyC, Align, AlignmentC, TypedC;
    var x := Conf(s, c, v, off);
    var at := off + |x|;
    var g := Gap(Align(at, AlignmentC(s, c, v)) - at);
    assert (x + g) + BodyC(s, c, v, at + |g|) == x + (g + BodyC(s, c, v, at + |g|));
  }

  // ----- Draining a queue of referents -----

  /** Of the output of a queue, the first part is done and q is still to be coded. */
  ghost predicate Partway(s: Syntax, dec: bool, b0: seq<u8>, off0: nat, b1: seq<u8>, off1: nat,
                          done: Out, q: seq<Deferred>, all: seq<Deferred>)
    requires TypedRefs(q) && TypedRefs(all)
  {
    && Coded(dec, b0, off0, true, b1, off1, done)
    && done + Drain(s, q, off0 + |done|) == Drain(s, all, off0)
  }

  lemma DrainFirst(s: Syntax, q: seq<Deferred>, off: nat)
    requires TypedRefs(q) && q != []
    ensures var x := Construct(s, q[0].coder, q[0].val, off);
            Drain(s, q, off) == x + Drain(s, q[1..] + RefsC(q[0].coder, q[0].val), off + |x|)
  {
    hide Construct, RefsC, TypedC;
  }

  lemma PartwayStart(s: Syntax, dec: bool, b: seq<u8>, off: nat, all: seq<Deferred>)
    requires TypedRefs(all) && off <= |b|
    ensures Partway(s, dec, b, off, b, off, [], all, all)
  {
    CodedNothing(dec, b, off);
    assert [] + Drain(s, all, off) == Drain(s, all, off);
  }

  lemma PartwayNext(s: Syntax, dec: bool, b0: seq<u8>, off0: nat, b1: seq<u8>, off1: nat,
                    done: Out, q: seq<Deferred>, all: seq<Deferred>)
    requires TypedRefs(q) && TypedRefs(all) && q != []
    requires Partway(s, dec, b0, off0, b1, off1, done, q, all)
    requires dec ==> Match(b0, off0, Drain(s, all, off0))
    ensures off1 <= |b1|
    ensures dec ==> Match(b1, off1, Construct(s, q[0].coder, q[0].val, off1))
  {
    hide Construct, RefsC, TypedC, Match, Drain, Written;
    DrainFirst(s, q, off0 + |done|);
    Advance(dec, b0, off0, b1, off1, done, Drain(s, q, off0 + |done|));
    var x := Construct(s, q[0].coder, q[0].val, off1);
    if dec { MatchSplit(b1, off1, x, Drain(s, q[1..] + RefsC(q[0].coder, q[0].val), off1 + |x|)); }
  }

  lemma PartwayStep(s: Syntax, dec: bool, b0: seq<u8>, off0: nat, b1: seq<u8>, off1: nat, ok: bool, b2: seq<u8>, off2: nat,
                    done: Out, q: seq<Deferred>, all: seq<Deferred>)
    requires TypedRefs(q) && TypedRefs(all) && q != []
    requires Partway(s, dec, b0, off0, b1, off1, done, q, all)
    requires Coded(dec, b1, off1, ok, b2, off2, Construct(s, q[0].coder, q[0].val, off1))
    ensures var x := Construct(s, q[0].coder, q[0].val, off1);
            ok ==> Partway(s, dec, b0, off0, b2, off2, done + x, q[1..] + RefsC(q[0].coder, q[0].val), all)
    ensures !ok ==> Coded(dec, b0, off0, false, b2, off2, Drain(s, all, off0))
  {
    hide Construct, RefsC, TypedC, Match, Drain, Written;
    DrainFirst(s, q, off0 + |done|);
    var x := Construct(s, q[0].coder, q[0].val, off1);
    var rest := Drain(s, q[1..] + RefsC(q[0].coder, q[0].val), off1 + |x|);
    assert (done + x) + rest == done + (x + rest);
    CodedThen(dec, b0, off0, b1, off1, ok, b2, off2, done, x);
    if !ok { CodedFails(dec, b0, off0, b2, off2, done + x, rest); }
  }

  lemma PartwayEnd(s: Syntax, dec: bool, b0: seq<u8>, off0: nat, b1: seq<u8>, off1: nat, done: Out, all: seq<Deferred>)
    requires TypedRefs(all) && Partway(s, dec, b0, off0, b1, off1, done, [], all)
    ensures Coded(dec, b0, off0, true, b1, off1, Drain(s, all, off0))
  {
    assert done + [] == done;
  }

  // ----- Where the buffer may end -----

  /** A construct that does not fit leaves the caller's memory alone if the buffer does not end within the conformance
      words of a string. */
  predicate KeptC(s: Syntax, c: Coder, v: Val, off: nat, len: nat)
    requires TypedC(c, v)
  {
    c.Utf16z? ==> off + |Conf(s, c, v, off)| <= len
  }

  /** The same of the first construct of a queue that does not fit. */
  ghost predicate Kept(s: Syntax, q: seq<Deferred>, off: nat, len: nat)
    requires TypedRefs(q)
    decreases Pending(q)
  {
    q != [] ==>
      var end := off + |Construct(s, q[0].coder, q[0].val, off)|;
      NextPending(q);
      if end > len then KeptC(s, q[0].coder, q[0].val, off, len)
      else Kept(s, q[1..] + RefsC(q[0].coder, q[0].val), end, len)
  }

  lemma KeptNext(s: Syntax, q: seq<Deferred>, off: nat, len: nat)
    requires TypedRefs(q) && q != []
    ensures var end := off + |Construct(s, q[0].coder, q[0].val, off)|;
      Kept(s, q, off, len) <==>
        if end > len then KeptC(s, q[0].coder, q[0].val, off, len)
        else Kept(s, q[1..] + RefsC(q[0].coder, q[0].val), end, len)
  {
    hide Construct, RefsC, TypedC, KeptC;
  }

  /** A pointer at the top level: the pointer itself, the referent and what it refers to. */
  ghost predicate KeptReferred(s: Syntax, kind: Kind, c: Coder, v: Val, off: nat, len: nat)
    requires TypedC(c, v)
  {
    var at := off + if kind == Ref then 0 else |Word(s, off, UPTR)|;
    at > len || Kept(s, [Deferred(c, v)], at, len)
  }

  lemma KeptTop(s: Syntax, kind: Kind, c: Coder, v: Val, off: nat, len: nat)
    requires TypedC(c, v)
    ensures var at := off + if kind == Ref then 0 else |Word(s, off, UPTR)|;
      var end := at + |Construct(s, c, v, at)|;
      KeptReferred(s, kind, c, v, off, len) <==>
        at > len || if end > len then KeptC(s, c, v, at, len) else Kept(s, RefsC(c, v), end, len)
  {
    hide Construct, RefsC, TypedC, KeptC, Word;
    var at := off + if kind == Ref then 0 else |Word(s, off, UPTR)|;
    KeptNext(s, [Deferred(c, v)], at, len);
    assert [Deferred(c, v)][1..] + RefsC(c, v) == RefsC(c, v);
  }

  /** A request or a response. */
  ghost predicate KeptMessage(s: Syntax, f: Shape, v: Val, off: nat, len: nat)
    requires TopLevel(f) && Typed(f, v)
  {
    match f
    case U32 => true
    case Text(k) => KeptReferred(s, k, Utf16z, v, off, len)
    case Ptr(k, t) => KeptReferred(s, k, Plain(t), v, off, len)
    case Then(a, b) =>
      var end := off + |Message(s, a, v.a, off)|;
      if end > len then KeptMessage(s, a, v.a, off, len) else KeptMessage(s, b, v.b, end, len)
  }

  lemma KeptMessageIs(s: Syntax, f: Shape, v: Val, off: nat, len: nat)
    requires TopLevel(f) && Typed(f, v)
    ensures match f
      case U32 => KeptMessage(s, f, v, off, len)
      case Text(k) => KeptMessage(s, f, v, off, len) == KeptReferred(s, k, Utf16z, v, off, len)
      case Ptr(k, t) => KeptMessage(s, f, v, off, len) == KeptReferred(s, k, Plain(t), v, off, len)
      case Then(a, b) =>
        var end := off + |Message(s, a, v.a, off)|;
        KeptMessage(s, f, v, off, len) ==
          if end > len then KeptMessage(s, a, v.a, off, len) else KeptMessage(s, b, v.b, end, len)
      case _ => true
  {
    hide KeptReferred, Message, Kept, KeptC;
  }

  lemma HostOrder(x: nat)
    requires x < 0x1_0000
    ensures var h := Stored(true, 2, x); Loaded(true, [h[0], h[1]]) == x
  {
    var h := Stored(true, 2, x);
    assert [h[0], h[1]] == h;
    Pow256Values();
    StoredRoundTrip(true, 2, x);
  }
}
