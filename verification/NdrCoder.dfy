/** The NDR engine of lib/dcerpc.c. One set of coders both encodes and decodes; every construct is coded
    twice, first for its conformance and its alignment, then for its data; pointers below the top level
    are deferred to a queue. A ghost value tells what is being coded. */
module NdrCoder {
  import opened Wrappers
  import opened Octets
  import opened Numbers
  import opened NdrGrammar
  import opened NdrMemory
  import opened NdrWire

  const MAX_DEFERRED_PTR: nat := 1024

  class Pdu {
    const ndr64: bool
    const little: bool
    const decoding: bool
    const buf: array<u8>
    var offset: nat
    var mem: Memory
    var conformanceRun: bool
    var maxAlignment: nat
    var topLevel: bool
    var ptrs: seq<Pointer>
    var curPtr: nat
    var sizeIs: int
    var switchIs: int

    constructor (syntax: Syntax, decoding: bool, buf: array<u8>, offset: nat, mem: Memory)
      ensures Syn() == syntax && this.decoding == decoding && this.buf == buf
      ensures this.offset == offset && this.mem == mem
      ensures topLevel && !conformanceRun && ptrs == [] && curPtr == 0
    {
      ndr64, little := syntax.ndr64, syntax.little;
      this.decoding, this.buf, this.offset, this.mem := decoding, buf, offset, mem;
      conformanceRun, maxAlignment, topLevel := false, 1, true;
      ptrs, curPtr, sizeIs, switchIs := [], 0, 0, 0;
    }

    function Syn(): Syntax {
      Syntax(ndr64, little)
    }

    // ----- dcerpc_set_uint16/32/64 and dcerpc_get_uint16/32/64 -----

    method SetUint(at: nat, n: nat, value: nat) returns (ok: bool, next: nat)
      requires n == 2 || n == 4 || n == 8
      modifies buf
      ensures Coded(false, old(buf[..]), at, ok, buf[..], next, Int(Syn(), n, at, value))
    {
      hide Align, Stored;
      var p := Align(at, n);
      if p + n > buf.Length { return false, p; }
      var bytes := Stored(little, n, value);
      forall i | 0 <= i < n { buf[p + i] := bytes[i]; }
      ghost var out := Int(Syn(), n, at, value);
      forall k | 0 <= k < buf.Length
        ensures buf[k] == Written(old(buf[..]), at, out)[k]
      {
        if p <= k < p + n { assert out[k - at] == Some(bytes[k - p]); }
      }
      return true, p + n;
    }

    method GetUint(at: nat, n: nat, ghost x: nat) returns (ok: bool, next: nat, value: nat)
      requires n == 2 || n == 4 || n == 8
      requires x < Pow256(n) && Match(buf[..], at, Int(Syn(), n, at, x))
      ensures Coded(true, buf[..], at, ok, buf[..], next, Int(Syn(), n, at, x))
      ensures ok ==> value == x
    {
      var p := Align(at, n);
      if p + n > buf.Length { return false, p, 0; }
      value := Loaded(little, buf[p..p + n]);
      MatchInt(Syn(), buf[..], at, n, x);
      assert buf[..][p..p + n] == buf[p..p + n];
      return true, p + n, value;
    }

    /** One integer of n octets, in the direction of this PDU. */
    method Uint(n: nat, value: nat, ghost x: nat) returns (ok: bool, r: nat)
      requires n == 2 || n == 4 || n == 8
      requires x < Pow256(n)
      requires if decoding then Match(buf[..], offset, Int(Syn(), n, offset, x)) else value == x
      modifies `offset, buf
      ensures Coded(decoding, old(buf[..]), old(offset), ok, buf[..], offset, Int(Syn(), n, old(offset), x))
      ensures ok ==> r == x
    {
      r := value;
      if decoding {
        ok, offset, r := GetUint(offset, n, x);
      } else {
        ok, offset := SetUint(offset, n, value);
      }
    }

    method RaiseAlignment(n: nat)
      modifies `maxAlignment
      ensures maxAlignment == Max(old(maxAlignment), n)
    {
      if maxAlignment < n { maxAlignment := n; }
    }

    // ----- Scalars -----

    method Uint32(value: u32, ghost x: u32) returns (ok: bool, r: u32)
      requires !decoding ==> value == x
      requires decoding && !conformanceRun ==> Match(buf[..], offset, Int(Syn(), 4, offset, x))
      modifies `offset, `maxAlignment, buf
      ensures conformanceRun ==> ok && r == value && Aligned(4)
      ensures !conformanceRun ==> maxAlignment == old(maxAlignment)
      ensures !conformanceRun ==> Coded(decoding, old(buf[..]), old(offset), ok, buf[..], offset, Int(Syn(), 4, old(offset), x))
      ensures ok && !conformanceRun ==> r == x
    {
      if conformanceRun {
        RaiseAlignment(4);
        return true, value;
      }
      Pow256Values();
      var n;
      ok, n := Uint(4, value, x);
      r := if ok then n else value;
    }

    /** Only the alignment has changed. */
    twostate predicate Aligned(n: nat)
      reads this, buf
    {
      maxAlignment == Max(old(maxAlignment), n) && offset == old(offset) && buf[..] == old(buf[..])
    }

    method Uint3264(value: u64, ghost x: u64) returns (ok: bool, r: u64)
      requires !decoding ==> value == x
      requires decoding && !conformanceRun ==> Match(buf[..], offset, Word(Syn(), offset, x))
      modifies `offset, `maxAlignment, buf
      ensures conformanceRun ==> ok && r == value && Aligned(WordSize(Syn()))
      ensures !conformanceRun ==> maxAlignment == old(maxAlignment)
      ensures !conformanceRun ==> Coded(decoding, old(buf[..]), old(offset), ok, buf[..], offset, Word(Syn(), old(offset), x))
      ensures ok && !conformanceRun ==> r == if decoding then x % Pow256(WordSize(Syn())) else value
    {
      if conformanceRun {
        RaiseAlignment(if ndr64 then 8 else 4);
        return true, value;
      }
      ok, r := Word3264(value, x);
    }

    method Word3264(value: u64, ghost x: u64) returns (ok: bool, r: u64)
      requires !decoding ==> value == x
      requires decoding ==> Match(buf[..], offset, Word(Syn(), offset, x))
      modifies `offset, buf
      ensures Coded(decoding, old(buf[..]), old(offset), ok, buf[..], offset, Word(Syn(), old(offset), x))
      ensures ok ==> r == if decoding then x % Pow256(WordSize(Syn())) else value
    {
      hide Align, Stored, Written, Gap, Octs, Pow256;
      Pow256Values();
      var n;
      if ndr64 {
        ok, n := Uint(8, value, x);
      } else {
        ok, n := Uint(4, value % 0x1_0000_0000, x % 0x1_0000_0000);
      }
      r := if ok && decoding then n else value;
    }

    /** A conformance word: coded in the conformance run, absent from the data. */
    method Conformance(value: u64, ghost x: u32) returns (ok: bool, r: u64)
      requires !decoding ==> value == x
      requires decoding && conformanceRun ==> Match(buf[..], offset, Word(Syn(), offset, x))
      modifies `offset, buf
      ensures !conformanceRun ==> ok && r == value && offset == old(offset) && buf[..] == old(buf[..])
      ensures conformanceRun ==> Coded(decoding, old(buf[..]), old(offset), ok, buf[..], offset, Word(Syn(), old(offset), x))
      ensures ok && conformanceRun ==> r == x
    {
      if !conformanceRun { return true, value; }
      Pow256Values();
      ok, r := Word3264(value, x);
    }

    // ----- Strings -----

    /** smb2_utf16_to_utf8 on what a C string can hold: the code units up to the first NUL, each stored
        least significant octet first. */
    method Utf16ToUtf8(at: nat, count: nat, ghost text: Wide) returns (r: Wide)
      requires at + 2 * count <= buf.Length && count == |text| + 1
      requires forall k | 0 <= k < count :: Loaded(true, [buf[at + 2 * k], buf[at + 2 * k + 1]]) == Terminated(text)[k]
      ensures r == text
    {
      r := [];
      var i := 0;
      while i < count
        invariant 0 <= i <= |text| && r == text[..i]
        decreases count - i
      {
        var u := Loaded(true, [buf[at + 2 * i], buf[at + 2 * i + 1]]);
        assert u == Terminated(text)[i];
        if u == 0 { break; }
        var unit: Unit := u;
        r := r + [unit];
        i := i + 1;
      }
    }

    /** The three conformance words of a string. */
    method StringConformance(maxCount: u32, start: u32, actualCount: u32, ghost v: Val)
      returns (ok: bool, a: u32, b: u32, c: u32)
      requires conformanceRun && TypedC(Utf16z, v)
      requires !decoding ==> maxCount == actualCount == |v.text| + 1 && start == 0
      requires decoding ==> Match(buf[..], offset, Conf(Syn(), Utf16z, v, offset))
      modifies `offset, `maxAlignment, buf
      ensures Coded(decoding, old(buf[..]), old(offset), ok, buf[..], offset, Conf(Syn(), Utf16z, v, old(offset)))
      ensures ok ==> a == c == |v.text| + 1 && b == 0 && maxAlignment == Max(old(maxAlignment), 2)
    {
      hide Align, Stored, Written, Gap, Octs, Word, Int, Match;
      ghost var b0, off0 := buf[..], offset;
      ghost var n := |v.text| + 1;
      ghost var x := Word(Syn(), off0, n);
      ghost var y := Word(Syn(), off0 + |x|, 0);
      ghost var z := Word(Syn(), off0 + |x + y|, n);
      assert x + (y + z) == x + y + z;
      if decoding { MatchSplit(b0, off0, x, y + z); }
      a, b, c := 0, 0, 0;
      var w;
      ok, w := Conformance(maxCount, n);
      if !ok { return; }
      a := w;
      ghost var b1 := buf[..];
      Advance(decoding, b0, off0, b1, offset, x, y + z);
      if decoding { MatchSplit(b1, offset, y, z); }
      ok, w := Conformance(start, 0);
      CodedThen(decoding, b0, off0, b1, off0 + |x|, ok, buf[..], offset, x, y);
      if !ok { return; }
      b := w;
      ghost var b2 := buf[..];
      Advance(decoding, b0, off0, b2, offset, x + y, z);
      ok, w := Conformance(actualCount, n);
      CodedThen(decoding, b0, off0, b2, off0 + |x + y|, ok, buf[..], offset, x + y, z);
      if !ok { return; }
      c := w;
      RaiseAlignment(2);
    }

    method EncodeUtf16(addr: nat, ghost v: Val, ghost m0: Memory) returns (ok: bool)
      requires !decoding && TypedC(Utf16z, v) && addr < |m0| && HoldsC(m0, Utf16z, addr, v, false)
      requires mem == if conformanceRun then m0[addr := Swapped(Utf16(0, 0, 0, [], m0[addr].text))]
                      else MidRun(false, m0, Utf16z, addr, v)
      requires offset <= buf.Length
      modifies `offset, `maxAlignment, `mem, buf
      ensures conformanceRun ==> Coded(false, old(buf[..]), old(offset), ok, buf[..], offset, Conf(Syn(), Utf16z, v, old(offset)))
      ensures conformanceRun && ok ==> maxAlignment == Max(old(maxAlignment), 2) && mem == MidRun(false, m0, Utf16z, addr, v)
      ensures !conformanceRun ==> Coded(false, old(buf[..]), old(offset), ok, buf[..], offset, BodyC(Syn(), Utf16z, v, old(offset)))
      ensures !conformanceRun ==> mem == old(mem) && maxAlignment == old(maxAlignment)
      ensures conformanceRun ==> mem != m0
    {
      hide Align, Stored, Written, Gap, Octs, Conf, Int;
      var u := mem[addr].utf16;
      if conformanceRun {
        var units := TextOf(u.utf8);
        mem := mem[addr := Swapped(Utf16(|units| + 1, 0, |units| + 1, units, u.utf8))];
        assert mem[addr] != m0[addr];
        var a, b, c;
        ok, a, b, c := StringConformance(|units| + 1, 0, |units| + 1, v);
        return;
      }
      ghost var b0, off0, us := buf[..], offset, Terminated(v.text);
      WrittenNothing(b0, off0);
      var i := 0;
      while i < |u.units|
        invariant 0 <= i <= |v.text| && mem == old(mem) && maxAlignment == old(maxAlignment)
        invariant Coded(false, b0, off0, true, buf[..], offset, Units(Syn(), us[..i], off0))
      {
        assert us[..i + 1][..i] == us[..i];
        ok := EncodeUnit(u.units[i], us[..i + 1], b0, off0);
        if !ok { UnitsGrow(Syn(), us, i + 1, off0); return; }
        i := i + 1;
      }
      assert us[..|us|] == us && us[..i + 1][..i] == us[..i];
      ok := EncodeUnit(0, us[..i + 1], b0, off0);
    }

    /** Encodes the last code unit of a string of which the others are already written. */
    method EncodeUnit(u: u16, ghost us: seq<u16>, ghost b0: seq<u8>, ghost off0: nat) returns (ok: bool)
      requires !decoding && !conformanceRun && us != [] && us[|us| - 1] == u
      requires Coded(false, b0, off0, true, buf[..], offset, Units(Syn(), us[..|us| - 1], off0))
      modifies `offset, buf
      ensures Coded(false, b0, off0, ok, buf[..], offset, Units(Syn(), us, off0))
    {
      hide Align, Stored, Written, Gap, Octs, Int;
      Pow256Values();
      ghost var b1, off1 := buf[..], offset;
      var w;
      ok, w := Uint(2, u, u);
      CodedThen(false, b0, off0, b1, off1, ok, buf[..], offset, Units(Syn(), us[..|us| - 1], off0), Int(Syn(), 2, off1, u));
    }

    method DecodeUtf16(addr: nat, ghost v: Val, ghost m0: Memory) returns (ok: bool)
      requires decoding && TypedC(Utf16z, v) && addr < |m0| && m0[addr] == Zero
      requires mem == if conformanceRun then m0[addr := Swapped(Utf16(0, 0, 0, [], None))]
                      else MidRun(true, m0, Utf16z, addr, v)
      requires conformanceRun ==> Match(buf[..], offset, Conf(Syn(), Utf16z, v, offset))
      requires !conformanceRun ==> Match(buf[..], offset, BodyC(Syn(), Utf16z, v, offset)) && offset % 2 == 0
      modifies `offset, `maxAlignment, `mem, buf
      ensures conformanceRun ==> Coded(true, old(buf[..]), old(offset), ok, buf[..], offset, Conf(Syn(), Utf16z, v, old(offset)))
      ensures conformanceRun && ok ==> maxAlignment == Max(old(maxAlignment), 2) && mem == MidRun(true, m0, Utf16z, addr, v)
      ensures !conformanceRun ==> Coded(true, old(buf[..]), old(offset), ok, buf[..], offset, BodyC(Syn(), Utf16z, v, old(offset)))
      ensures !conformanceRun && ok ==> mem == m0[addr := Swapped(Utf16(|v.text| + 1, 0, |v.text| + 1, [], Some(v.text)))]
      ensures !conformanceRun ==> maxAlignment == old(maxAlignment)
      ensures !conformanceRun ==> addr < |mem| && mem[addr].Swapped?
    {
      hide Align, Stored, Written, Gap, Octs, Conf, Int, Units;
      if conformanceRun {
        var a, b, c;
        ok, a, b, c := StringConformance(0, 0, 0, v);
        mem := mem[addr := Swapped(Utf16(a, b, c, [], None))];
        return;
      }
      var u := mem[addr].utf16;
      UnitsEven(Syn(), Terminated(v.text), offset);
      if offset + u.actualCount * 2 > buf.Length { return false; }
      if !little { SwapUnits(u.actualCount, v); }
      forall k | 0 <= k < u.actualCount
        ensures Loaded(true, [buf[offset + 2 * k], buf[offset + 2 * k + 1]]) == Terminated(v.text)[k]
      {
        if little { MatchUnits(Syn(), buf[..], Terminated(v.text), offset, k); }
      }
      var text := Utf16ToUtf8(offset, u.actualCount, v.text);
      offset := offset + u.actualCount * 2;
      mem := mem[addr := Swapped(u.(utf8 := Some(text)))];
      return true;
    }

    /** Big endian: turns the string at the offset into host order where it lies. */
    method SwapUnits(count: nat, ghost v: Val)
      requires decoding && !little && TypedC(Utf16z, v) && count == |v.text| + 1
      requires offset % 2 == 0 && offset + 2 * count <= buf.Length
      requires Match(buf[..], offset, Units(Syn(), Terminated(v.text), offset))
      modifies buf
      ensures forall k | 0 <= k < count ::
                Loaded(true, [buf[offset + 2 * k], buf[offset + 2 * k + 1]]) == Terminated(v.text)[k]
      ensures buf[offset + 2 * count..] == old(buf[..])[offset + 2 * count..]
    {
      hide Align, Written, Gap, Octs, Int, Units, Match, Loaded, Stored;
      ghost var b0, us := buf[..], Terminated(v.text);
      var i := 0;
      while i < count
        invariant 0 <= i <= count
        invariant forall k | 0 <= k < i :: Loaded(true, [buf[offset + 2 * k], buf[offset + 2 * k + 1]]) == us[k]
        invariant forall j | offset + 2 * i <= j < buf.Length :: buf[j] == b0[j]
      {
        var o := offset + i * 2;
        MatchUnits(Syn(), b0, us, offset, i);
        assert buf[o] == b0[o] && buf[o + 1] == b0[o + 1];
        var x := Loaded(little, [buf[o], buf[o + 1]]);
        var h := Stored(true, 2, x);
        HostOrder(x);
        buf[o], buf[o + 1] := h[0], h[1];
        i := i + 1;
      }
    }

    /** _ndr_utf16z_coder. The caller's string pointer is swapped for a conversion record before the
        first run and swapped back after the second. */
    method Utf16zCoder(addr: nat, ghost v: Val, ghost m0: Memory) returns (ok: bool)
      requires TypedC(Utf16z, v) && addr < |m0|
      requires if decoding then m0[addr] == Zero else HoldsC(m0, Utf16z, addr, v, false)
      requires mem == if conformanceRun then m0 else MidRun(decoding, m0, Utf16z, addr, v)
      requires decoding && conformanceRun ==> Match(buf[..], offset, Conf(Syn(), Utf16z, v, offset))
      requires decoding && !conformanceRun ==> Match(buf[..], offset, BodyC(Syn(), Utf16z, v, offset))
      requires offset <= buf.Length && (!conformanceRun ==> offset % 2 == 0)
      modifies `offset, `maxAlignment, `mem, buf
      ensures conformanceRun ==> Coded(decoding, old(buf[..]), old(offset), ok, buf[..], offset, Conf(Syn(), Utf16z, v, old(offset)))
      ensures conformanceRun && ok ==> maxAlignment == Max(old(maxAlignment), 2) && mem == MidRun(decoding, m0, Utf16z, addr, v)
      ensures !conformanceRun ==> Coded(decoding, old(buf[..]), old(offset), ok, buf[..], offset, BodyC(Syn(), Utf16z, v, old(offset)))
      ensures !conformanceRun && ok ==> mem == if decoding then m0[addr := Chars(Some(v.text))] else m0
      ensures !conformanceRun ==> maxAlignment == old(maxAlignment)
      ensures !decoding && !conformanceRun ==> mem == m0
      ensures !decoding && conformanceRun ==> mem != m0
    {
      hide Align, Stored, Written, Gap, Octs, Conf, Int, Units, Match;
      if conformanceRun {
        mem := mem[addr := Swapped(Utf16(0, 0, 0, [], StringOf(mem, addr)))];
      }
      if decoding {
        ok := DecodeUtf16(addr, v, m0);
      } else {
        ok := EncodeUtf16(addr, v, m0);
      }
      if !conformanceRun {
        mem := mem[addr := Chars(mem[addr].utf16.utf8)];
      }
    }

    // ----- Pointers and the constructs they lead to -----

    method AddDeferredPointer(c: Coder, addr: nat)
      requires |ptrs| < MAX_DEFERRED_PTR
      modifies `ptrs
      ensures ptrs == old(ptrs) + [Pointer(c, addr)]
    {
      ptrs := ptrs + [Pointer(c, addr)];
    }

    /** ndr_encode_ptr, PTR_REF and PTR_UNIQUE, below the top level. */
    method EncodePtr(kind: Kind, isNull: bool, c: Coder, addr: nat) returns (ok: bool)
      requires !decoding && !topLevel && (isNull ==> kind == Unique)
      requires !conformanceRun && !isNull ==> |ptrs| < MAX_DEFERRED_PTR
      modifies `offset, `maxAlignment, `ptrs, buf
      ensures conformanceRun ==> ok && Aligned(WordSize(Syn())) && ptrs == old(ptrs)
      ensures !conformanceRun ==> maxAlignment == old(maxAlignment)
      ensures !conformanceRun ==> Coded(false, old(buf[..]), old(offset), ok, buf[..], offset, Word(Syn(), old(offset), if isNull then 0 else Referent(kind)))
      ensures !conformanceRun && ok ==> ptrs == old(ptrs) + if isNull then [] else [Pointer(c, addr)]
    {
      if conformanceRun {
        RaiseAlignment(if ndr64 then 8 else 4);
        return true;
      }
      var w;
      match kind {
        case Ref =>
          ok, w := Uint3264(RPTR, RPTR);
          if !ok { return; }
          AddDeferredPointer(c, addr);
        case Unique =>
          if isNull {
            ok, w := Uint3264(0, 0);
            return;
          }
          ok, w := Uint3264(UPTR, UPTR);
          if !ok { return; }
          AddDeferredPointer(c, addr);
      }
    }

    /** ndr_decode_ptr, PTR_REF and PTR_UNIQUE, below the top level. */
    method DecodePtr(kind: Kind, isNull: bool, c: Coder, addr: nat) returns (ok: bool)
      requires decoding && !topLevel && (isNull ==> kind == Unique)
      requires !conformanceRun && !isNull ==> |ptrs| < MAX_DEFERRED_PTR
      requires !conformanceRun ==> Match(buf[..], offset, Word(Syn(), offset, if isNull then 0 else Referent(kind)))
      modifies `offset, `maxAlignment, `ptrs, buf
      ensures conformanceRun ==> ok && Aligned(WordSize(Syn())) && ptrs == old(ptrs)
      ensures !conformanceRun ==> maxAlignment == old(maxAlignment)
      ensures !conformanceRun ==> Coded(true, old(buf[..]), old(offset), ok, buf[..], offset, Word(Syn(), old(offset), if isNull then 0 else Referent(kind)))
      ensures !conformanceRun && ok ==> ptrs == old(ptrs) + if isNull then [] else [Pointer(c, addr)]
    {
      hide Align, Stored, Written, Gap, Octs, Int, Match;
      if conformanceRun {
        RaiseAlignment(if ndr64 then 8 else 4);
        return true;
      }
      Pow256Values();
      var p;
      match kind {
        case Ref =>
          ok, p := Uint3264(0, RPTR);
          if !ok { return; }
          AddDeferredPointer(c, addr);
        case Unique =>
          ok, p := Uint3264(0, if isNull then 0 else UPTR);
          if !ok { return; }
          if p == 0 || isNull { return true; }
          AddDeferredPointer(c, addr);
      }
    }

    method NestedPtr(kind: Kind, isNull: bool, c: Coder, addr: nat) returns (ok: bool)
      requires !topLevel && (isNull ==> kind == Unique)
      requires !conformanceRun && !isNull ==> |ptrs| < MAX_DEFERRED_PTR
      requires decoding && !conformanceRun ==> Match(buf[..], offset, Word(Syn(), offset, if isNull then 0 else Referent(kind)))
      modifies `offset, `maxAlignment, `ptrs, buf
      ensures conformanceRun ==> ok && Aligned(WordSize(Syn())) && ptrs == old(ptrs)
      ensures !conformanceRun ==> maxAlignment == old(maxAlignment)
      ensures !conformanceRun ==> Coded(decoding, old(buf[..]), old(offset), ok, buf[..], offset, Word(Syn(), old(offset), if isNull then 0 else Referent(kind)))
      ensures !conformanceRun && ok ==> ptrs == old(ptrs) + if isNull then [] else [Pointer(c, addr)]
    {
      if decoding {
        ok := DecodePtr(kind, isNull, c, addr);
      } else {
        ok := EncodePtr(kind, isNull, c, addr);
      }
    }

    /** A coder without conformance of its own, below the top level: a field, or fields in order. */
    method Fields(f: Shape, addr: nat, ghost v: Val) returns (ok: bool)
      requires !topLevel
      requires if decoding && conformanceRun then Blank(mem, addr, Width(f)) else Source(decoding, mem, sizeIs, Plain(f), addr, v)
      requires !conformanceRun ==> |ptrs| + |Refs(f, v)| <= MAX_DEFERRED_PTR
      requires decoding && !conformanceRun ==> Match(buf[..], offset, Body(Syn(), f, v, offset))
      modifies `offset, `maxAlignment, `ptrs, `mem, `sizeIs, `switchIs, buf
      ensures conformanceRun ==> ok && Aligned(Alignment(Syn(), f)) && ptrs == old(ptrs) && mem == old(mem)
      ensures conformanceRun ==> sizeIs == if decoding then old(sizeIs) else LastSize(f, v, old(sizeIs))
      ensures !conformanceRun ==> maxAlignment == old(maxAlignment)
      ensures !conformanceRun ==> Coded(decoding, old(buf[..]), old(offset), ok, buf[..], offset, Body(Syn(), f, v, old(offset)))
      ensures !conformanceRun && ok ==> Result(decoding, old(mem), old(ptrs), old(sizeIs), mem, ptrs, sizeIs, Plain(f), addr, v)
      ensures !decoding ==> mem == old(mem)
      decreases f, 1
    {
      hide Align, Stored, Written, Gap, Octs, Int, Match, Coded;
      match f {
        case U32 =>
          ok := NumberField(addr, v);
        case Text(k) =>
          ok := NestedPtr(k, false, Utf16z, addr);
        case Ptr(k, t) =>
          ok := NestedPtr(k, false, Plain(t), addr);
        case Then(a, b) =>
          ok := FieldThenField(a, b, addr, v);
        case Container(e) =>
          ok := ContainerField(e, addr, v);
        case Union(arms) =>
          ok := UnionField(arms, addr, v);
      }
    }

    method NumberField(addr: nat, ghost v: Val) returns (ok: bool)
      requires if decoding && conformanceRun then Blank(mem, addr, 1) else Source(decoding, mem, sizeIs, Plain(U32), addr, v)
      requires decoding && !conformanceRun ==> Match(buf[..], offset, Body(Syn(), U32, v, offset))
      modifies `offset, `maxAlignment, `mem, buf
      ensures conformanceRun ==> ok && Aligned(4) && mem == old(mem)
      ensures !conformanceRun ==> maxAlignment == old(maxAlignment)
      ensures !conformanceRun ==> Coded(decoding, old(buf[..]), old(offset), ok, buf[..], offset, Body(Syn(), U32, v, old(offset)))
      ensures !conformanceRun && ok ==> Result(decoding, old(mem), old(ptrs), old(sizeIs), mem, ptrs, sizeIs, Plain(U32), addr, v)
      ensures !decoding ==> mem == old(mem)
    {
      hide Align, Stored, Written, Gap, Octs, Int, Match, Coded;
      var n;
      ok, n := Uint32(NumberOf(mem, addr), if v.Num? then v.n else 0);
      if decoding && !conformanceRun && ok { mem := mem[addr := Number(n)]; }
    }

    method FieldThenField(a: Shape, b: Shape, addr: nat, ghost v: Val) returns (ok: bool)
      requires !topLevel
      requires if decoding && conformanceRun then Blank(mem, addr, Width(Then(a, b))) else Source(decoding, mem, sizeIs, Plain(Then(a, b)), addr, v)
      requires !conformanceRun ==> |ptrs| + |Refs(Then(a, b), v)| <= MAX_DEFERRED_PTR
      requires decoding && !conformanceRun ==> Match(buf[..], offset, Body(Syn(), Then(a, b), v, offset))
      modifies `offset, `maxAlignment, `ptrs, `mem, `sizeIs, `switchIs, buf
      ensures conformanceRun ==> ok && Aligned(Alignment(Syn(), Then(a, b))) && ptrs == old(ptrs) && mem == old(mem)
      ensures conformanceRun ==> sizeIs == if decoding then old(sizeIs) else LastSize(Then(a, b), v, old(sizeIs))
      ensures !conformanceRun ==> maxAlignment == old(maxAlignment)
      ensures !conformanceRun ==> Coded(decoding, old(buf[..]), old(offset), ok, buf[..], offset, Body(Syn(), Then(a, b), v, old(offset)))
      ensures !conformanceRun && ok ==> Result(decoding, old(mem), old(ptrs), old(sizeIs), mem, ptrs, sizeIs, Plain(Then(a, b)), addr, v)
      ensures !decoding ==> mem == old(mem)
      decreases Then(a, b), 0
    {
      hide Align, Stored, Written, Gap, Octs, Int, Match, Coded, Result, Pointers, Kids, Source, Sizes, SizeSet, LastSize, Refs, Typed, Width, Body, Alignment, TypedC, SizesC, LastSizeC;
      ghost var m0, p0, n0, b0, off0 := mem, ptrs, sizeIs, buf[..], offset;
      if conformanceRun {
        ThenFacts(Syn(), m0, a, b, addr);
        if !decoding { SourceFirst(false, m0, n0, a, b, addr, v); SourceBoth(m0, n0, LastSize(a, v.a, n0), a, b, addr, v); }
        ok := Fields(a, addr, if decoding then v else v.a);
        ok := Fields(b, addr + Width(a), if decoding then v else v.b);
        return;
      }
      SourceFirst(decoding, m0, n0, a, b, addr, v);
      SourceFacts(decoding, m0, n0, Then(a, b), addr, v);
      BodyThen(Syn(), a, b, v, off0);
      ghost var x := Body(Syn(), a, v.a, off0);
      ghost var y := Body(Syn(), b, v.b, off0 + |x|);
      if decoding { MatchSplit(b0, off0, x, y); }
      ok := Fields(a, addr, v.a);
      if !ok {
        CodedFails(decoding, b0, off0, buf[..], offset, x, y);
        return;
      }
      ghost var m1, p1, n1, b1 := mem, ptrs, sizeIs, buf[..];
      Advance(decoding, b0, off0, b1, offset, x, y);
      SourceSecond(decoding, m0, p0, n0, m1, p1, n1, a, b, addr, v);
      ok := Fields(b, addr + Width(a), v.b);
      CodedThen(decoding, b0, off0, b1, off0 + |x|, ok, buf[..], offset, x, y);
      if ok { ResultThen(decoding, m0, p0, n0, m1, p1, n1, mem, ptrs, sizeIs, a, b, addr, v); }
    }

    method ContainerField(e: Shape, addr: nat, ghost v: Val) returns (ok: bool)
      requires !topLevel
      requires if decoding && conformanceRun then Blank(mem, addr, 1) else Source(decoding, mem, sizeIs, Plain(Container(e)), addr, v)
      requires !conformanceRun ==> |ptrs| + |Refs(Container(e), v)| <= MAX_DEFERRED_PTR
      requires decoding && !conformanceRun ==> Match(buf[..], offset, Body(Syn(), Container(e), v, offset))
      modifies `offset, `maxAlignment, `ptrs, `mem, `sizeIs, `switchIs, buf
      ensures conformanceRun ==> ok && Aligned(WordSize(Syn())) && ptrs == old(ptrs) && mem == old(mem)
      ensures conformanceRun ==> sizeIs == if decoding then old(sizeIs) else LastSize(Container(e), v, old(sizeIs))
      ensures !conformanceRun ==> maxAlignment == old(maxAlignment)
      ensures !conformanceRun ==> Coded(decoding, old(buf[..]), old(offset), ok, buf[..], offset, Body(Syn(), Container(e), v, old(offset)))
      ensures !conformanceRun && ok ==> Result(decoding, old(mem), old(ptrs), old(sizeIs), mem, ptrs, sizeIs, Plain(Container(e)), addr, v)
      ensures !decoding ==> mem == old(mem)
    {
      hide Align, Stored, Written, Gap, Octs, Int, Match, Coded, Word, Body;
      ghost var m0, p0, b0, off0 := mem, ptrs, buf[..], offset;
      ghost var count := if v.Arr? && |v.elems| < 0x8000_0000 then |v.elems| else 0;
      ghost var x := Int(Syn(), 4, off0, count);
      ghost var y := Word(Syn(), off0 + |x|, if count == 0 then 0 else UPTR);
      if !conformanceRun {
        BodyContainer(Syn(), e, v, off0);
        if decoding { MatchSplit(b0, off0, x, y); }
      }
      var entriesRead;
      ok, entriesRead := Uint32(CountOf(mem, addr), count);
      if !ok {
        CodedFails(decoding, b0, off0, buf[..], offset, x, y);
        return;
      }
      ghost var b1 := buf[..];
      if !conformanceRun {
        Advance(decoding, b0, off0, b1, offset, x, y);
      }
      if decoding && !conformanceRun { mem := mem[addr := Counted(entriesRead, FirstOf(mem, addr))]; }
      if entriesRead != 0 {
        sizeIs := entriesRead;
        if decoding && FirstOf(mem, addr).None? {
          var first := |mem|;
          mem := mem[addr := Counted(entriesRead, Some(first))] + seq(Offset(e, entriesRead), _ => Zero);
        }
      }
      var target := FirstOf(mem, addr);
      ok := NestedPtr(Unique, target.None?, Carray(e), if target.Some? then target.value else 0);
      if !conformanceRun {
        CodedThen(decoding, b0, off0, b1, off0 + |x|, ok, buf[..], offset, x, y);
        if ok { assert mem[addr].count == count; }
      }
    }

    method UnionField(arms: seq<Shape>, addr: nat, ghost v: Val) returns (ok: bool)
      requires !topLevel
      requires if decoding && conformanceRun then Blank(mem, addr, Width(Union(arms))) else Source(decoding, mem, sizeIs, Plain(Union(arms)), addr, v)
      requires !conformanceRun ==> |ptrs| + |Refs(Union(arms), v)| <= MAX_DEFERRED_PTR
      requires decoding && !conformanceRun ==> Match(buf[..], offset, Body(Syn(), Union(arms), v, offset))
      modifies `offset, `maxAlignment, `ptrs, `mem, `sizeIs, `switchIs, buf
      ensures conformanceRun ==> ok && Aligned(WordSize(Syn())) && ptrs == old(ptrs) && mem == old(mem)
      ensures conformanceRun ==> sizeIs == if decoding then old(sizeIs) else LastSize(Union(arms), v, old(sizeIs))
      ensures !conformanceRun ==> maxAlignment == old(maxAlignment)
      ensures !conformanceRun ==> Coded(decoding, old(buf[..]), old(offset), ok, buf[..], offset, Body(Syn(), Union(arms), v, old(offset)))
      ensures !conformanceRun && ok ==> Result(decoding, old(mem), old(ptrs), old(sizeIs), mem, ptrs, sizeIs, Plain(Union(arms)), addr, v)
      ensures !decoding ==> mem == old(mem)
      decreases Union(arms), 0
    {
      hide Align, Stored, Written, Gap, Octs, Int, Match, Coded, Word, Level, Result, Source, Kids, Pointers, Sizes, SizeSet, LastSize, Refs, Typed, Body, Alignment, Width;
      ghost var m0, p0, n0, b0, off0 := mem, ptrs, sizeIs, buf[..], offset;
      var level, p;
      if conformanceRun {
        if !decoding { SourceLevel(m0, n0, arms, addr, v); }
        ok, level := Uint32(NumberOf(mem, addr), NumberOf(mem, addr));
        ok, p := Uint3264(level, level);
        switchIs := p;
        if 0 <= switchIs < |arms| {
          UnionFacts(Syn(), m0, arms, switchIs, addr);
          if !decoding { SourceArm(decoding, m0, m0, n0, arms, addr, v); }
          ok := Fields(arms[switchIs], addr + 1, if decoding then v else v.arm);
        }
        return;
      }
      SourceFacts(decoding, m0, n0, Union(arms), addr, v);
      BodyUnion(Syn(), arms, v, off0);
      ghost var y := Level(Syn(), off0, v.level);
      ghost var z := if v.level < |arms| then Body(Syn(), arms[v.level], v.arm, off0 + |y|) else [];
      assert y + z == Body(Syn(), Union(arms), v, off0);
      if decoding { MatchSplit(b0, off0, y, z); } else { SourceLevel(m0, n0, arms, addr, v); }
      ok := LevelThenSwitch(addr, v.level);
      if !ok {
        CodedFails(decoding, b0, off0, buf[..], offset, y, z);
        return;
      }
      ghost var m1, b1 := mem, buf[..];
      Advance(decoding, b0, off0, b1, offset, y, z);
      if 0 <= switchIs < |arms| {
        SourceArm(decoding, m0, m1, n0, arms, addr, v);
        ok := Fields(arms[switchIs], addr + 1, v.arm);
        CodedThen(decoding, b0, off0, b1, off0 + |y|, ok, buf[..], offset, y, z);
      } else {
        assert y + z == y;
      }
      if ok { ResultUnion(decoding, m0, p0, n0, m1, mem, ptrs, sizeIs, arms, addr, v); }
    }

    /** The level of a union, and the discriminant that repeats it. */
    method LevelThenSwitch(addr: nat, ghost x: u32) returns (ok: bool)
      requires !conformanceRun && addr < |mem|
      requires if decoding then mem[addr] == Zero else mem[addr] == Number(x)
      requires decoding ==> Match(buf[..], offset, Level(Syn(), offset, x))
      modifies `offset, `maxAlignment, `mem, `switchIs, buf
      ensures Coded(decoding, old(buf[..]), old(offset), ok, buf[..], offset, Level(Syn(), old(offset), x))
      ensures maxAlignment == old(maxAlignment)
      ensures ok ==> switchIs == x && mem == if decoding then old(mem)[addr := Number(x)] else old(mem)
      ensures !decoding ==> mem == old(mem)
    {
      hide Align, Stored, Written, Gap, Octs, Int, Match, Coded, Word;
      ghost var b0, off0 := buf[..], offset;
      ghost var a := Int(Syn(), 4, off0, x);
      ghost var b := Word(Syn(), off0 + |a|, x);
      if decoding { MatchSplit(b0, off0, a, b); }
      var level, p;
      ok, level := Uint32(NumberOf(mem, addr), x);
      if !ok {
        CodedFails(decoding, b0, off0, buf[..], offset, a, b);
        return;
      }
      if decoding { mem := mem[addr := Number(level)]; }
      ghost var b1 := buf[..];
      Advance(decoding, b0, off0, b1, offset, a, b);
      Pow256Values();
      ok, p := Uint3264(level, x);
      CodedThen(decoding, b0, off0, b1, off0 + |a|, ok, buf[..], offset, a, b);
      if !ok { return; }
      assert p == x;
      if decoding { mem := mem[addr := Number(p)]; }
      switchIs := p;
    }

    /** The conformance run of ndr_carray_coder: the number of elements, then what their alignment is. */
    method CarrayConformance(e: Shape, addr: nat, ghost v: Val) returns (ok: bool)
      requires !topLevel && conformanceRun && maxAlignment >= 1
      requires Source(decoding, mem, sizeIs, Carray(e), addr, v)
      requires decoding ==> Match(buf[..], offset, Conf(Syn(), Carray(e), v, offset))
      modifies `offset, `maxAlignment, `ptrs, `mem, `sizeIs, `switchIs, buf
      ensures Coded(decoding, old(buf[..]), old(offset), ok, buf[..], offset, Conf(Syn(), Carray(e), v, old(offset)))
      ensures ok ==> maxAlignment == Max(old(maxAlignment), AlignmentC(Syn(), Carray(e), v))
      ensures ok ==> mem == old(mem) && ptrs == old(ptrs) && sizeIs == old(sizeIs)
      ensures !decoding ==> mem == old(mem)
    {
      hide Align, Stored, Written, Gap, Octs, Int, Match, Coded, Word, Kids, Holds, Stores, Refs, Typed, SizeSet, LastSize, Body, Width;
      var num := sizeIs;
      var p;
      ok, p := Conformance(num, |v.elems|);
      if !ok { return; }
      if p != num { assert false; return false; }
      ghost var m0, off1, b1 := mem, offset, buf[..];
      var i := 0;
      while i < p
        invariant 0 <= i <= p == |v.elems|
        invariant mem == m0 && ptrs == old(ptrs) && sizeIs == old(sizeIs) && offset == off1 && buf[..] == b1
        invariant maxAlignment == if i == 0 then old(maxAlignment) else Max(old(maxAlignment), Alignment(Syn(), e))
      {
        if decoding { ElemBlank(m0, e, addr, v, i); } else { ElemHeld(m0, sizeIs, e, addr, v, i); }
        ok := Fields(e, addr + Offset(e, i), v.elems[i]);
        i := i + 1;
      }
      ok := true;
    }

    /** The data run of ndr_carray_coder. */
    method CarrayData(e: Shape, addr: nat, ghost v: Val) returns (ok: bool)
      requires !topLevel && !conformanceRun && offset <= buf.Length
      requires Source(decoding, mem, sizeIs, Carray(e), addr, v)
      requires |ptrs| + |ElemRefs(e, v.elems)| <= MAX_DEFERRED_PTR
      requires decoding ==> Match(buf[..], offset, Elems(Syn(), e, v.elems, offset))
      modifies `offset, `maxAlignment, `ptrs, `mem, `sizeIs, `switchIs, buf
      ensures Coded(decoding, old(buf[..]), old(offset), ok, buf[..], offset, Elems(Syn(), e, v.elems, old(offset)))
      ensures ok ==> Result(decoding, old(mem), old(ptrs), old(sizeIs), mem, ptrs, sizeIs, Carray(e), addr, v)
      ensures !decoding ==> mem == old(mem)
    {
      hide Align, Stored, Written, Gap, Octs, Int, Match, Coded, Word, Kids, Holds, Stores, Refs, Typed, SizeSet, LastSize, Body, Width, Ready, Inside, Changed, Grown, Sizes, Result, ElemsResult;
      var num := sizeIs;
      ghost var vs, m0, p0, n0, b0, off0 := v.elems, mem, ptrs, sizeIs, buf[..], offset;
      ElemsStart(decoding, m0, p0, e, addr, vs);
      CodedNothing(decoding, b0, off0);
      var i := 0;
      while i < num
        invariant 0 <= i <= num == |vs| && sizeIs == n0
        invariant Coded(decoding, b0, off0, true, buf[..], offset, Elems(Syn(), e, vs[..i], off0))
        invariant ElemsResult(decoding, m0, p0, mem, ptrs, e, addr, vs[..i]) && (!decoding ==> mem == m0)
      {
        ghost var m1, p1, b1, off1 := mem, ptrs, buf[..], offset;
        ElemNext(Syn(), decoding, b0, off0, b1, off1, e, vs, i);
        ElemSource(decoding, m0, p0, m1, p1, n0, e, addr, v, i);
        ok := Fields(e, addr + Offset(e, i), vs[i]);
        ElemCoded(Syn(), decoding, b0, off0, b1, off1, ok, buf[..], offset, e, vs, i);
        if !ok { return; }
        ElemsStep(decoding, m0, p0, m1, p1, mem, ptrs, n0, sizeIs, e, addr, vs, i);
        i := i + 1;
      }
      assert vs[..|vs|] == vs;
      ElemsEnd(decoding, m0, p0, mem, ptrs, n0, e, addr, v);
      ok := true;
    }

    /** Applies a coder to what a pointer refers to. m0 is the memory before the construct. */
    method Run(c: Coder, addr: nat, ghost v: Val, ghost m0: Memory) returns (ok: bool)
      requires !topLevel && Source(decoding, m0, sizeIs, c, addr, v)
      requires mem == if conformanceRun then m0 else MidRun(decoding, m0, c, addr, v)
      requires conformanceRun ==> maxAlignment >= 1 && offset <= buf.Length
      requires !conformanceRun && !c.Plain? ==> offset <= buf.Length && offset % 2 == 0
      requires !conformanceRun ==> |ptrs| + |RefsC(c, v)| <= MAX_DEFERRED_PTR
      requires decoding ==> Match(buf[..], offset, if conformanceRun then Conf(Syn(), c, v, offset) else BodyC(Syn(), c, v, offset))
      modifies `offset, `maxAlignment, `ptrs, `mem, `sizeIs, `switchIs, buf
      ensures Coded(decoding, old(buf[..]), old(offset), ok, buf[..], offset,
                    if conformanceRun then Conf(Syn(), c, v, old(offset)) else BodyC(Syn(), c, v, old(offset)))
      ensures conformanceRun && ok ==> maxAlignment == Max(old(maxAlignment), AlignmentC(Syn(), c, v))
      ensures conformanceRun && ok ==> mem == MidRun(decoding, m0, c, addr, v) && ptrs == old(ptrs)
      ensures conformanceRun && ok ==> sizeIs == if decoding then old(sizeIs) else LastSizeC(c, v, old(sizeIs))
      ensures !conformanceRun && ok ==> Result(decoding, m0, old(ptrs), old(sizeIs), mem, ptrs, sizeIs, c, addr, v)
      ensures !ok && !decoding ==> (mem == m0 <==> !(c.Utf16z? && conformanceRun))
    {
      hide Align, Stored, Written, Gap, Octs, Int, Match, Coded, Word, Result, Body, Kids, Sizes, SizeSet, LastSize, Refs, Stores, Elems, Units, Typed, Width;
      match c {
        case Plain(f) =>
          if conformanceRun { CodedNothing(decoding, buf[..], offset); }
          if decoding && conformanceRun { SourceBlank(m0, sizeIs, c, addr, v); }
          ok := Fields(f, addr, v);
        case Utf16z =>
          if decoding { SourceBlank(m0, sizeIs, c, addr, v); }
          ok := Utf16zCoder(addr, v, m0);
          if !conformanceRun && ok { StringResult(decoding, m0, ptrs, sizeIs, mem, addr, v); }
        case Carray(e) =>
          if conformanceRun {
            ok := CarrayConformance(e, addr, v);
          } else {
            ok := CarrayData(e, addr, v);
          }
      }
    }

    /** ndr_do_coder: the same coder twice, for the conformance and then, aligned, for the data. */
    method DoCoder(c: Coder, addr: nat, ghost v: Val) returns (ok: bool)
      requires !topLevel && Source(decoding, mem, sizeIs, c, addr, v) && offset <= buf.Length
      requires |ptrs| + |RefsC(c, v)| <= MAX_DEFERRED_PTR
      requires decoding ==> Match(buf[..], offset, Construct(Syn(), c, v, offset))
      modifies `offset, `maxAlignment, `conformanceRun, `ptrs, `mem, `sizeIs, `switchIs, buf
      ensures Coded(decoding, old(buf[..]), old(offset), ok, buf[..], offset, Construct(Syn(), c, v, old(offset)))
      ensures ok ==> !conformanceRun && Result(decoding, old(mem), old(ptrs), old(sizeIs), mem, ptrs, sizeIs, c, addr, v)
      ensures !ok && !decoding ==> (mem == old(mem) <==> KeptC(Syn(), c, v, old(offset), buf.Length))
    {
      hide Align, Stored, Written, Gap, Octs, Int, Match, Coded, Word, Result, Conf, BodyC, Body, Construct, Source, TypedC, AlignmentC, MidRun, LastSizeC;
      SourceTyped(decoding, mem, sizeIs, c, addr, v);
      ghost var m0, p0, n0, b0, off0 := mem, ptrs, sizeIs, buf[..], offset;
      ghost var x := Conf(Syn(), c, v, off0);
      ghost var a := AlignmentC(Syn(), c, v);
      ghost var g := Gap(Align(off0 + |x|, a) - (off0 + |x|));
      ghost var y := BodyC(Syn(), c, v, off0 + |x| + |g|);
      ConstructParts(Syn(), c, v, off0);
      maxAlignment, conformanceRun := 1, true;
      if decoding { MatchSplit(b0, off0, x, g + y); }
      ok := Run(c, addr, v, m0);
      if !ok {
        CodedFits(decoding, b0, off0, false, buf[..], offset, x);
        CodedFails(decoding, b0, off0, buf[..], offset, x, g + y);
        return;
      }
      ghost var b1, off1 := buf[..], offset;
      CodedFits(decoding, b0, off0, true, b1, off1, x);
      Advance(decoding, b0, off0, b1, off1, x, g + y);
      AlignmentPositive(Syn(), c, v);
      offset := Align(offset, maxAlignment);
      conformanceRun := false;
      if decoding { MatchSplit(b1, off1, g, y); }
      if !c.Plain? { NoGap(Syn(), c, v, off0); }
      SourceAgain(decoding, m0, n0, c, addr, v);
      ghost var n1 := sizeIs;
      ok := Run(c, addr, v, m0);
      GapThen(decoding, b0, off0, b1, off1, ok, buf[..], offset, x, |g|, y);
      if ok && n1 != n0 { ResultAgain(decoding, m0, p0, n0, mem, ptrs, sizeIs, c, addr, v); }
    }

    /** Codes the first of the deferred referents q; r is the queue that this leaves. */
    method CodeNextPointer(ghost q: seq<Item>, ghost items: seq<Item>, ghost lo: nat, ghost hi: nat, ghost base: nat)
      returns (ok: bool, ghost r: seq<Item>)
      requires !topLevel && !conformanceRun && offset <= buf.Length
      requires q != [] && Queued(decoding, mem, sizeIs, q, lo, hi, base) && TypedItems(items)
      requires curPtr < |ptrs| && ptrs[curPtr..] == Pointers(q)
      requires curPtr + Pending(Forget(q)) <= MAX_DEFERRED_PTR
      requires decoding ==> Match(buf[..], offset, Construct(Syn(), q[0].coder, q[0].val, offset))
      modifies `offset, `maxAlignment, `conformanceRun, `ptrs, `curPtr, `mem, `sizeIs, `switchIs, buf
      ensures Coded(decoding, old(buf[..]), old(offset), ok, buf[..], offset, Construct(Syn(), q[0].coder, q[0].val, old(offset)))
      ensures ok ==> !conformanceRun && Queued(decoding, mem, sizeIs, r, lo, hi, base)
      ensures ok ==> Forget(r) == Forget(q)[1..] + RefsC(q[0].coder, q[0].val)
      ensures ok ==> curPtr == old(curPtr) + 1 <= |ptrs| && ptrs[curPtr..] == Pointers(r)
      ensures ok ==> if decoding then Grown(old(mem), mem) && Changed(old(mem), mem, lo, hi, base) else mem == old(mem)
      ensures ok && decoding && Completes(old(mem), q, items) ==> Completes(mem, r, items)
      ensures !ok && !decoding ==> (mem == old(mem) <==> KeptC(Syn(), q[0].coder, q[0].val, old(offset), buf.Length))
    {
      hide Align, Stored, Written, Gap, Octs, Match, Coded, Result, Construct, Source, Completes, OneSize, AllHold, Grown, Changed, Ready, Inside, Kids, KidsC, RefsC;
      var idx := curPtr;
      curPtr := curPtr + 1;
      assert ptrs[idx] == Pointer(q[0].coder, q[0].addr) by { assert ptrs[idx] == ptrs[idx..][0] == Pointers(q)[0]; }
      ghost var c, addr, v := q[0].coder, q[0].addr, q[0].val;
      ghost var m1, p1, n1 := mem, ptrs, sizeIs;
      QueueHead(decoding, mem, sizeIs, q, lo, hi, base);
      QueueRoom(q);
      r := q;
      ok := DoCoder(ptrs[idx].coder, ptrs[idx].addr, v);
      if !ok { return; }
      ghost var kids := KidsC(mem, c, addr, v);
      QueueNext(decoding, m1, p1, n1, mem, ptrs, sizeIs, q, lo, hi, base);
      ResultParts(decoding, m1, p1, n1, mem, ptrs, sizeIs, c, addr, v);
      assert p1[curPtr..] == Pointers(q)[1..];
      assert ptrs[curPtr..] == p1[curPtr..] + Pointers(kids);
      if decoding && Completes(m1, q, items) { CompletesNext(m1, mem, q, items, kids); }
      r := q[1..] + kids;
    }

    /** dcerpc_process_deferred_pointers: first in, first out, until no pointer is left uncoded. */
    method ProcessDeferredPointers(ghost items: seq<Item>, ghost lo: nat, ghost hi: nat, ghost base: nat) returns (ok: bool)
      requires !topLevel && !conformanceRun && offset <= buf.Length
      requires Queued(decoding, mem, sizeIs, items, lo, hi, base)
      requires curPtr <= |ptrs| && ptrs[curPtr..] == Pointers(items)
      requires curPtr + Pending(Forget(items)) <= MAX_DEFERRED_PTR
      requires decoding ==> Match(buf[..], offset, Drain(Syn(), Forget(items), offset))
      modifies `offset, `maxAlignment, `conformanceRun, `ptrs, `curPtr, `mem, `sizeIs, `switchIs, buf
      ensures Coded(decoding, old(buf[..]), old(offset), ok, buf[..], offset, Drain(Syn(), Forget(items), old(offset)))
      ensures ok ==> !conformanceRun && curPtr == |ptrs| == old(curPtr) + Pending(Forget(items))
      ensures ok ==> if decoding then Grown(old(mem), mem) && AllHold(mem, items, true) && Changed(old(mem), mem, lo, hi, base)
                     else mem == old(mem)
      ensures !ok && !decoding ==> (mem == old(mem) <==> Kept(Syn(), Forget(items), old(offset), buf.Length))
    {
      hide Align, Stored, Written, Gap, Octs, Match, Coded, Result, Construct, Source, Queued, Completes, OneSize, AllHold, Grown, Changed, Partway, Drain, Refs, RefsC, TypedC, Kept, KeptC;
      ghost var m0, b0, off0, q := mem, buf[..], offset, items;
      ghost var done: Out := [];
      PartwayStart(Syn(), decoding, b0, off0, Forget(items));
      QueueStart(decoding, m0, sizeIs, items, lo, hi, base);
      while curPtr != |ptrs|
        invariant TypedItems(q) && curPtr <= |ptrs| && ptrs[curPtr..] == Pointers(q) && !conformanceRun
        invariant Queued(decoding, mem, sizeIs, q, lo, hi, base)
        invariant curPtr + Pending(Forget(q)) == old(curPtr) + Pending(Forget(items))
        invariant Partway(Syn(), decoding, b0, off0, buf[..], offset, done, Forget(q), Forget(items))
        invariant if decoding then Completes(mem, q, items) && Grown(m0, mem) && Changed(m0, mem, lo, hi, base) else mem == m0
        invariant Kept(Syn(), Forget(q), offset, buf.Length) == Kept(Syn(), Forget(items), off0, buf.Length)
        decreases Pending(Forget(q))
      {
        assert q != [];
        ghost var m1, b1, off1, r := mem, buf[..], offset, q;
        PartwayNext(Syn(), decoding, b0, off0, b1, off1, done, Forget(q), Forget(items));
        NextPending(Forget(q));
        KeptNext(Syn(), Forget(q), off1, buf.Length);
        ok, r := CodeNextPointer(q, items, lo, hi, base);
        CodedFits(decoding, b1, off1, ok, buf[..], offset, Construct(Syn(), q[0].coder, q[0].val, off1));
        PartwayStep(Syn(), decoding, b0, off0, b1, off1, ok, buf[..], offset, done, Forget(q), Forget(items));
        if !ok { return; }
        if decoding {
          ChangedTwice(m0, m1, mem, lo, hi, base);
          GrownTwice(m0, m1, mem);
        }
        done := done + Construct(Syn(), q[0].coder, q[0].val, off1);
        q := r;
      }
      assert Forget(q) == [];
      QueueEnd(decoding, mem, q, items);
      PartwayEnd(Syn(), decoding, b0, off0, buf[..], offset, done, Forget(items));
      ok := true;
    }

    /** The pointer itself: none for PTR_REF. */
    method TopWord(kind: Kind) returns (ok: bool, isNull: bool)
      requires !conformanceRun && offset <= buf.Length
      requires decoding ==> Match(buf[..], offset, if kind == Ref then [] else Word(Syn(), offset, UPTR))
      modifies `offset, `maxAlignment, buf
      ensures Coded(decoding, old(buf[..]), old(offset), ok, buf[..], offset,
                    if kind == Ref then [] else Word(Syn(), old(offset), UPTR))
      ensures !isNull
    {
      hide Coded, Match, Word;
      isNull := false;
      if kind == Unique {
        Pow256Values();
        var p;
        ok, p := Uint3264(if decoding then 0 else UPTR, UPTR);
        isNull := ok && decoding && p == 0;
      } else {
        CodedNothing(decoding, buf[..], offset);
        ok := true;
      }
    }

    /** ndr_encode_ptr and ndr_decode_ptr at the top level: the referent follows its pointer at once, and
        then everything that was deferred while it was coded. */
    method TopPtr(kind: Kind, c: Coder, addr: nat, ghost v: Val) returns (ok: bool)
      requires topLevel && !conformanceRun && curPtr == |ptrs| && offset <= buf.Length
      requires Source(decoding, mem, sizeIs, c, addr, v)
      requires |ptrs| + NodesC(c, v) <= MAX_DEFERRED_PTR
      requires decoding ==> Match(buf[..], offset, Referred(Syn(), kind, c, v, offset))
      modifies `offset, `maxAlignment, `conformanceRun, `topLevel, `ptrs, `curPtr, `mem, `sizeIs, `switchIs, buf
      ensures Coded(decoding, old(buf[..]), old(offset), ok, buf[..], offset, Referred(Syn(), kind, c, v, old(offset)))
      ensures ok ==> topLevel && !conformanceRun && curPtr == |ptrs| == old(|ptrs|) + NodesC(c, v)
      ensures ok ==> if decoding then HoldsC(mem, c, addr, v, true) && Grown(old(mem), mem)
                                      && Changed(old(mem), mem, addr, addr + WidthC(c, v), |old(mem)|)
                     else mem == old(mem)
      ensures !ok && !decoding ==> (mem == old(mem) <==> KeptReferred(Syn(), kind, c, v, old(offset), buf.Length))
    {
      hide Align, Stored, Written, Gap, Octs, Int, Match, Coded, Result, Construct, Drain, Source, Queued, AllHold, HoldsC, StoresC, KidsC, RefsC, Grown, Changed, WidthC, TypedC, NodesC, Word, Kept, KeptC, KeptReferred;
      SourceTyped(decoding, mem, sizeIs, c, addr, v);
      ghost var m0, p0, n0, b0, off0 := mem, ptrs, sizeIs, buf[..], offset;
      ghost var x: Out := if kind == Ref then [] else Word(Syn(), off0, UPTR);
      ghost var y := Construct(Syn(), c, v, off0 + |x|);
      ghost var z := Drain(Syn(), RefsC(c, v), off0 + |x + y|);
      assert Referred(Syn(), kind, c, v, off0) == x + y + z == x + (y + z);
      if decoding { MatchSplit(b0, off0, x, y + z); }
      var saved, isNull := topLevel, false;
      ok, isNull := TopWord(kind);
      CodedFits(decoding, b0, off0, ok, buf[..], offset, x);
      KeptTop(Syn(), kind, c, v, off0, buf.Length);
      if !ok {
        CodedFails(decoding, b0, off0, buf[..], offset, x, y + z);
        return;
      }
      if isNull { assert false; return true; }
      ghost var b1 := buf[..];
      Advance(decoding, b0, off0, b1, offset, x, y + z);
      if decoding { MatchSplit(b1, offset, y, z); }
      topLevel := false;
      RefsWithin(c, v);
      ok := DoCoder(c, addr, v);
      CodedFits(decoding, b1, off0 + |x|, ok, buf[..], offset, y);
      CodedThen(decoding, b0, off0, b1, off0 + |x|, ok, buf[..], offset, x, y);
      if !ok {
        CodedFails(decoding, b0, off0, buf[..], offset, x + y, z);
        return;
      }
      ghost var m1, b2 := mem, buf[..];
      Advance(decoding, b0, off0, b2, offset, x + y, z);
      TopQueue(decoding, m0, p0, n0, mem, ptrs, sizeIs, c, addr, v);
      ResultParts(decoding, m0, p0, n0, mem, ptrs, sizeIs, c, addr, v);
      ok := ProcessDeferredPointers(KidsC(mem, c, addr, v), addr, addr + WidthC(c, v), |m0|);
      CodedThen(decoding, b0, off0, b2, off0 + |x + y|, ok, buf[..], offset, x + y, z);
      if !ok { return; }
      topLevel := saved;
      if decoding { TopComplete(m0, m1, mem, c, addr, v); }
    }

    /** A request or a response: integers and pointers at the top level, one after the other. */
    method Code(f: Shape, addr: nat, ghost v: Val) returns (ok: bool)
      requires topLevel && !conformanceRun && curPtr == |ptrs| && offset <= buf.Length
      requires TopLevel(f) && Typed(f, v) && OneArray(f, v) && Offered(decoding, mem, f, addr, v)
      requires |ptrs| + Deferrals(f, v) <= MAX_DEFERRED_PTR
      requires decoding ==> Match(buf[..], offset, Message(Syn(), f, v, offset))
      modifies `offset, `maxAlignment, `conformanceRun, `topLevel, `ptrs, `curPtr, `mem, `sizeIs, `switchIs, buf
      ensures Coded(decoding, old(buf[..]), old(offset), ok, buf[..], offset, Message(Syn(), f, v, old(offset)))
      ensures ok ==> topLevel && !conformanceRun && curPtr == |ptrs| == old(|ptrs|) + Deferrals(f, v)
      ensures ok ==> Delivered(decoding, old(mem), mem, f, addr, v)
      ensures !ok && !decoding ==> (mem == old(mem) <==> KeptMessage(Syn(), f, v, old(offset), buf.Length))
      decreases f
    {
      hide Align, Stored, Written, Gap, Octs, Int, Match, Coded, Result, Referred, Message, Grown, Changed, Sizes, Nodes, KeptReferred, KeptMessage;
      ghost var s, m0, b0, off0 := Syn(), mem, buf[..], offset;
      match f {
        case U32 =>
          MessageIs(s, f, v, off0);
          KeptMessageIs(s, f, v, off0, buf.Length);
          U32Offered(decoding, m0, sizeIs, addr, v);
          ok := NumberField(addr, v);
          if ok { U32Delivered(decoding, m0, ptrs, sizeIs, mem, addr, v); }
        case Text(k) =>
          MessageIs(s, f, v, off0);
          KeptMessageIs(s, f, v, off0, buf.Length);
          ok := TopPtr(k, Utf16z, addr, v);
        case Ptr(k, t) =>
          MessageIs(s, f, v, off0);
          KeptMessageIs(s, f, v, off0, buf.Length);
          ok := TopPtr(k, Plain(t), addr, v);
        case Then(a, b) =>
          MessageIs(s, f, v, off0);
          KeptMessageIs(s, f, v, off0, buf.Length);
          ghost var x := Message(s, a, v.a, off0);
          ghost var y := Message(s, b, v.b, off0 + |x|);
          OfferedThen(decoding, m0, m0, a, b, addr, v);
          if decoding { MatchSplit(b0, off0, x, y); }
          ok := Code(a, addr, v.a);
          CodedFits(decoding, b0, off0, ok, buf[..], offset, x);
          if !ok {
            CodedFails(decoding, b0, off0, buf[..], offset, x, y);
            return;
          }
          ghost var m1, b1 := mem, buf[..];
          Advance(decoding, b0, off0, b1, offset, x, y);
          OfferedThen(decoding, m0, m1, a, b, addr, v);
          ok := Code(b, addr + Width(a), v.b);
          CodedThen(decoding, b0, off0, b1, off0 + |x|, ok, buf[..], offset, x, y);
          if ok { DeliveredThen(decoding, m0, m1, mem, a, b, addr, v); }
      }
    }
  }

  /** Encodes a value of any grammar and decodes the octets again into blank memory. */
  method RoundTrip(s: Syntax, f: Shape, m: Memory, addr: nat, ghost v: Val, buf: array<u8>, offset: nat)
    returns (ok: bool, encoded: Pdu, decoded: Pdu)
    requires TopLevel(f) && Typed(f, v) && OneArray(f, v) && Deferrals(f, v) <= MAX_DEFERRED_PTR
    requires Holds(m, f, addr, v, false) && offset <= buf.Length
    modifies buf
    ensures ok <==> offset + |Message(s, f, v, offset)| <= buf.Length
    ensures ok ==> encoded.mem == m && encoded.offset == decoded.offset
    ensures !ok ==> (encoded.mem == m <==> KeptMessage(s, f, v, offset, buf.Length))
    ensures ok ==> Holds(decoded.mem, f, 0, v, true)
    ensures ok ==> encoded.curPtr == |encoded.ptrs| == |decoded.ptrs| == decoded.curPtr == Deferrals(f, v)
  {
    hide Message, Holds, Written, Match, Typed;
    encoded := new Pdu(s, false, buf, offset, m);
    ghost var b0 := buf[..];
    ok := encoded.Code(f, addr, v);
    decoded := new Pdu(s, true, buf, offset, seq(Width(f), _ => Zero));
    if !ok { return; }
    WrittenMatches(b0, offset, Message(s, f, v, offset));
    ok := decoded.Code(f, 0, v);
  }
}
