/** Object identifiers in lib/asn1-ber.c: written group by group behind a one-octet reserve, and read back. */
module BerOid {
  import opened Octets
  import opened Wrappers
  import opened Sequences
  import opened BerSpec
  import opened Ber

  const OBJECT_ID: u8 := 6

  function OidOctets(oid: seq<u32>): seq<u8>
    requires |OidContents(oid)| < 0x1_0000_0000
  {
    [OBJECT_ID] + LengthOctets(|OidContents(oid)|) + OidContents(oid)
  }

  /** An identifier and how many octets it took. */
  function ReadOid(s: seq<u8>): Option<(seq<nat>, nat)> {
    if s == [] || s[0] != OBJECT_ID then None
    else
      match ReadLength(s[1..])
      case None => None
      case Some((length, used)) =>
        if 1 + used + length > |s| then None
        else
          match ReadOidContents(s[1 + used..1 + used + length])
          case None => None
          case Some(oid) => Some((oid, 1 + used + length))
  }

  /** For every identifier whose contents take the one length octet set aside: it comes back exactly when it
      survives. */
  lemma OidComesBack(oid: seq<u32>, rest: seq<u8>)
    requires |OidContents(oid)| < 128
    ensures ReadOid(OidOctets(oid) + rest) == Some((oid, |OidOctets(oid)|)) <==> Survives(oid)
    ensures match ReadOid(OidOctets(oid) + rest)
      case None => true
      case Some((_, used)) => used == |OidOctets(oid)|
  {
    hide OidContents, ReadOidContents, Survives, LengthOctets, ReadLength;
    var contents := OidContents(oid);
    var s := OidOctets(oid) + rest;
    assert s[1..] == LengthOctets(|contents|) + (contents + rest);
    LengthRoundTrip(|contents|, contents + rest);
    var used := |LengthOctets(|contents|)|;
    assert s[1 + used..1 + used + |contents|] == contents;
    OidRoundTrip(oid);
  }

  // ----- Writing -----

  function Group(present: bool, g: nat): seq<u8>
    requires g < 128
  {
    if present then [128 + g] else []
  }

  /** The five groups of a 32-bit number, without the empty ones in front. */
  lemma FiveGroups(n: u32)
    ensures var a, b, c, d, e := n % 128, n / 128 % 128, n / 128 / 128 % 128, n / 128 / 128 / 128 % 128, n / 128 / 128 / 128 / 128 % 128;
      SingleOid(n) == Group(e > 0, e) + (Group(d > 0 || e > 0, d) + (Group(c > 0 || d > 0 || e > 0, c)
                      + (Group(b > 0 || c > 0 || d > 0 || e > 0, b) + [a])))
  {
    hide Continued, Group;
    var n1 := n / 128;
    var n2 := n1 / 128;
    var n3 := n2 / 128;
    var n4 := n3 / 128;
    ContinuedGroup(n1);
    ContinuedGroup(n2);
    ContinuedGroup(n3);
    ContinuedGroup(n4);
    ContinuedNothing();
    var g4, g3, g2, g1 := Group(n4 > 0, n4 % 128), Group(n3 > 0, n3 % 128), Group(n2 > 0, n2 % 128), Group(n1 > 0, n1 % 128);
    assert SingleOid(n) == [] + g4 + g3 + g2 + g1 + [n % 128];
    assert [] + g4 + g3 + g2 + g1 + [n % 128] == g4 + (g3 + (g2 + (g1 + [n % 128])));
  }

  lemma ContinuedGroup(n: nat)
    ensures Continued(n) == Continued(n / 128) + Group(n > 0, n % 128)
  {
  }

  lemma ContinuedNothing()
    ensures Continued(0) == []
  {
  }

  method OutGroup(actx: Context, present: bool, g: nat) returns (ok: bool)
    requires actx.head <= actx.dst.Length && g < 128
    modifies actx`head, actx.dst
    ensures Emission(old(actx.dst[..]), old(actx.head), Group(present, g), actx.dst[..], actx.head, ok)
  {
    if present {
      ok := actx.OutByte(128 + g);
    } else {
      EmissionNothing(actx.dst[..], actx.head);
      ok := true;
    }
  }

  /** asn1ber_ber_from_single_oid. */
  method FromSingleOid(actx: Context, n: u32) returns (ok: bool)
    requires actx.head <= actx.dst.Length
    modifies actx`head, actx.dst
    ensures Emission(old(actx.dst[..]), old(actx.head), SingleOid(n), actx.dst[..], actx.head, ok)
  {
    hide SingleOid, Emission, Group;
    var oidb := n;
    var a := oidb % 128;
    oidb := oidb / 128;
    var b := oidb % 128;
    oidb := oidb / 128;
    var c := oidb % 128;
    oidb := oidb / 128;
    var d := oidb % 128;
    oidb := oidb / 128;
    var e := oidb % 128;
    FiveGroups(n);
    ok := FromGroups(actx, a, b, c, d, e);
  }

  method FromGroups(actx: Context, a: nat, b: nat, c: nat, d: nat, e: nat) returns (ok: bool)
    requires actx.head <= actx.dst.Length && a < 128 && b < 128 && c < 128 && d < 128 && e < 128
    modifies actx`head, actx.dst
    ensures Emission(old(actx.dst[..]), old(actx.head),
              Group(e > 0, e) + (Group(d > 0 || e > 0, d) + (Group(c > 0 || d > 0 || e > 0, c)
              + (Group(b > 0 || c > 0 || d > 0 || e > 0, b) + [a]))), actx.dst[..], actx.head, ok)
  {
    hide Emission, Group;
    ghost var d0, h0 := actx.dst[..], actx.head;
    ghost var s3 := Group(b > 0 || c > 0 || d > 0 || e > 0, b) + [a];
    ghost var s2 := Group(c > 0 || d > 0 || e > 0, c) + s3;
    ghost var s1 := Group(d > 0 || e > 0, d) + s2;
    ok := OutGroup(actx, e > 0, e);
    if !ok {
      EmissionFails(d0, h0, Group(e > 0, e), actx.dst[..], actx.head, s1);
      return;
    }
    EmissionBounds(d0, h0, Group(e > 0, e), actx.dst[..], actx.head, ok);
    ghost var d1, h1 := actx.dst[..], actx.head;
    ok := OutGroup(actx, d > 0 || e > 0, d);
    if ok {
      EmissionBounds(d1, h1, Group(d > 0 || e > 0, d), actx.dst[..], actx.head, ok);
      ghost var d2, h2 := actx.dst[..], actx.head;
      ok := OutGroup(actx, c > 0 || d > 0 || e > 0, c);
      if ok {
        EmissionBounds(d2, h2, Group(c > 0 || d > 0 || e > 0, c), actx.dst[..], actx.head, ok);
        ghost var d3, h3 := actx.dst[..], actx.head;
        ok := LastGroups(actx, b > 0 || c > 0 || d > 0 || e > 0, b, a);
        EmissionsJoin(d2, h2, Group(c > 0 || d > 0 || e > 0, c), d3, h3, s3, actx.dst[..], actx.head, ok);
      } else {
        EmissionFails(d2, h2, Group(c > 0 || d > 0 || e > 0, c), actx.dst[..], actx.head, s3);
      }
      EmissionsJoin(d1, h1, Group(d > 0 || e > 0, d), d2, h2, s2, actx.dst[..], actx.head, ok);
    } else {
      EmissionFails(d1, h1, Group(d > 0 || e > 0, d), actx.dst[..], actx.head, s2);
    }
    EmissionsJoin(d0, h0, Group(e > 0, e), d1, h1, s1, actx.dst[..], actx.head, ok);
  }

  method LastGroups(actx: Context, present: bool, b: nat, a: nat) returns (ok: bool)
    requires actx.head <= actx.dst.Length && a < 128 && b < 128
    modifies actx`head, actx.dst
    ensures Emission(old(actx.dst[..]), old(actx.head), Group(present, b) + [a], actx.dst[..], actx.head, ok)
  {
    hide Emission, Group;
    ghost var d0, h0 := actx.dst[..], actx.head;
    ok := OutGroup(actx, present, b);
    if !ok {
      EmissionFails(d0, h0, Group(present, b), actx.dst[..], actx.head, [a]);
      return;
    }
    EmissionBounds(d0, h0, Group(present, b), actx.dst[..], actx.head, ok);
    ghost var d1, h1 := actx.dst[..], actx.head;
    ok := actx.OutByte(a);
    EmissionsJoin(d0, h0, Group(present, b), d1, h1, [a], actx.dst[..], actx.head, ok);
  }

  /** The loop over the elements. */
  method FromArcs(actx: Context, oid: seq<u32>, from: nat) returns (ok: bool)
    requires actx.head <= actx.dst.Length && from <= |oid|
    modifies actx`head, actx.dst
    ensures Emission(old(actx.dst[..]), old(actx.head), Arcs(oid[from..]), actx.dst[..], actx.head, ok)
  {
    hide Emission, SingleOid, Arcs;
    ghost var d0, h0, all := actx.dst[..], actx.head, Arcs(oid[from..]);
    ghost var done: seq<u8> := [];
    EmissionNothing(d0, h0);
    var oiddex := from;
    assert [] + all == all;
    while oiddex < |oid|
      invariant from <= oiddex <= |oid| && actx.head <= actx.dst.Length
      invariant Emission(d0, h0, done, actx.dst[..], actx.head, true)
      invariant done + Arcs(oid[oiddex..]) == all
    {
      ghost var d1, h1, next, rest := actx.dst[..], actx.head, SingleOid(oid[oiddex]), Arcs(oid[oiddex + 1..]);
      ArcsFirst(oid, oiddex);
      assert done + (next + rest) == done + next + rest;
      ok := FromSingleOid(actx, oid[oiddex]);
      EmissionsJoin(d0, h0, done, d1, h1, next, actx.dst[..], actx.head, ok);
      done := done + next;
      if !ok {
        EmissionFails(d0, h0, done, actx.dst[..], actx.head, rest);
        return;
      }
      EmissionBounds(d0, h0, done, actx.dst[..], actx.head, ok);
      oiddex := oiddex + 1;
    }
    ArcsEnd(oid);
    assert done + [] == done;
    ok := true;
  }

  lemma ArcsFirst(oid: seq<u32>, i: nat)
    requires i < |oid|
    ensures Arcs(oid[i..]) == SingleOid(oid[i]) + Arcs(oid[i + 1..])
  {
    assert oid[i..][1..] == oid[i + 1..];
  }

  lemma ArcsEnd(oid: seq<u32>)
    ensures Arcs(oid[|oid|..]) == [] && oid[0..] == oid
  {
  }

  /** The first group, if the first two elements share one, and the rest. */
  method FromElements(actx: Context, oid: seq<u32>) returns (ok: bool)
    requires actx.head <= actx.dst.Length
    modifies actx`head, actx.dst
    ensures Emission(old(actx.dst[..]), old(actx.head), OidContents(oid), actx.dst[..], actx.head, ok)
  {
    hide Emission, SingleOid, Arcs;
    ghost var d0, h0 := actx.dst[..], actx.head;
    if |oid| > 1 && oid[0] < 40 {
      ghost var first, rest := SingleOid(Joint(oid)), Arcs(oid[2..]);
      ok := FromSingleOid(actx, (40 * (oid[0] as int) + oid[1] as int) % 0x1_0000_0000);
      if !ok {
        EmissionFails(d0, h0, first, actx.dst[..], actx.head, rest);
        return;
      }
      EmissionBounds(d0, h0, first, actx.dst[..], actx.head, ok);
      ghost var d1, h1 := actx.dst[..], actx.head;
      ok := FromArcs(actx, oid, 2);
      EmissionsJoin(d0, h0, first, d1, h1, rest, actx.dst[..], actx.head, ok);
    } else {
      ArcsEnd(oid);
      ok := FromArcs(actx, oid, 0);
    }
  }

  /** Longer contents take two length octets, and the second goes over the first of the contents. What is written ends
      in an octet that was in the buffer before. */
  function Clobbered(oid: seq<u32>, behind: u8): seq<u8>
    requires 128 <= |OidContents(oid)| < 0x1_0000_0000
  {
    [OBJECT_ID] + LengthOctets(|OidContents(oid)|) + OidContents(oid)[1..] + [behind]
  }

  /** asn1ber_ber_from_oid. The one octet set aside is enough for contents below 128 octets. */
  method FromOid(actx: Context, oid: seq<u32>) returns (ok: bool)
    requires actx.head <= actx.dst.Length < 0x8000_0000
    modifies actx`head, actx.dst, actx`lastError
    ensures |oid| >= MAX_ELEMENTS ==>
      !ok && actx.lastError == E2BIG && actx.head == old(actx.head) && actx.dst[..] == old(actx.dst[..])
    ensures |oid| < MAX_ELEMENTS ==> (ok <==> old(actx.head) + 2 + |OidContents(oid)| < actx.dst.Length)
    ensures ok ==> |oid| < MAX_ELEMENTS && |OidContents(oid)| < 160
    ensures ok && |OidContents(oid)| < 128 ==>
      Written(old(actx.dst[..]), old(actx.head), OidOctets(oid), actx.dst[..], actx.head)
    ensures ok && |OidContents(oid)| >= 128 ==>
      Written(old(actx.dst[..]), old(actx.head),
              Clobbered(oid, old(actx.dst[..])[old(actx.head) + 2 + |OidContents(oid)|]), actx.dst[..], actx.head)
  {
    hide Emission, Written, Put, Clobbered, LengthOctets, OidContents;
    ghost var d0, h0 := actx.dst[..], actx.head;
    if |oid| >= MAX_ELEMENTS {
      actx.lastError := E2BIG;
      return false;
    }
    FewOctets(oid);
    ghost var contents := OidContents(oid);
    ok := actx.OutByte(OBJECT_ID);
    EmissionKept(d0, h0, [OBJECT_ID], actx.dst[..], actx.head, ok);
    EmissionPuts(d0, h0, [OBJECT_ID], actx.dst[..], actx.head, ok);
    if !ok {
      return;
    }
    ghost var d1 := actx.dst[..];
    var saved, lenpos := actx.SaveOutState();
    ok := actx.ReserveLength(1);
    EmissionKept(d1, h0 + 1, Repeat<u8>(0, 1), actx.dst[..], actx.head, ok);
    EmissionPuts(d1, h0 + 1, Repeat<u8>(0, 1), actx.dst[..], actx.head, ok);
    if !ok {
      return;
    }
    ghost var d2, h2 := actx.dst[..], actx.head;
    ok := FromElements(actx, oid);
    EmissionKept(d2, h2, contents, actx.dst[..], actx.head, ok);
    EmissionPuts(d2, h2, contents, actx.dst[..], actx.head, ok);
    if !ok {
      return;
    }
    WrittenBack(d2, h2, contents, actx.dst[..], actx.head, h0 + 1);
    ghost var d3 := actx.dst[..];
    ok := actx.AnnotateLength(lenpos, 1);
    LengthOctetCount(|contents|);
    if ok {
      if |contents| < 128 {
        HeaderWritten(d0, h0, d1, d2, d3, oid, actx.dst[..], actx.head);
      } else {
        HeaderClobbers(d0, h0, oid, actx.dst[..], actx.head);
      }
    }
  }

  lemma LengthOctetCount(n: u32)
    ensures n < 128 ==> LengthOctets(n) == [n]
    ensures 128 <= n < 256 ==> |LengthOctets(n)| == 2
  {
    if 128 <= n < 256 {
      assert OctetCount(n) == 1 + OctetCount(n / 256) == 1;
    }
  }

  lemma FewOctets(oid: seq<u32>)
    requires |oid| < MAX_ELEMENTS
    ensures |OidContents(oid)| < 160
  {
    ArcsTake(oid);
    if |oid| > 1 {
      ArcsTake(oid[2..]);
      SingleTakes(Joint(oid));
    }
  }

  lemma {:induction false} ArcsTake(elements: seq<u32>)
    ensures |Arcs(elements)| <= 5 * |elements|
  {
    if elements != [] {
      SingleTakes(elements[0]);
      ArcsTake(elements[1..]);
    }
  }

  lemma SingleTakes(n: u32)
    ensures |SingleOid(n)| <= 5
  {
    FiveGroups(n);
  }

  lemma HeaderClobbers(d0: seq<u8>, h0: nat, oid: seq<u32>, d4: seq<u8>, head: nat)
    requires 128 <= |OidContents(oid)| < 256 && h0 + 2 + |OidContents(oid)| < |d0|
    requires d4 == Put(Put(Put(Put(d0, h0, [OBJECT_ID]), h0 + 1, Repeat<u8>(0, 1)), h0 + 2, OidContents(oid)),
                       h0 + 1, LengthOctets(|OidContents(oid)|))
    requires |LengthOctets(|OidContents(oid)|)| == 2 && head == h0 + 3 + |OidContents(oid)|
    ensures Written(d0, h0, Clobbered(oid, d0[h0 + 2 + |OidContents(oid)|]), d4, head)
  {
    hide LengthOctets, OidContents;
    var contents, length := OidContents(oid), LengthOctets(|OidContents(oid)|);
    assert d4 == d0[..h0] + [OBJECT_ID] + length + contents[1..] + d0[h0 + 2 + |contents|..];
  }

  lemma HeaderWritten(d0: seq<u8>, h0: nat, d1: seq<u8>, d2: seq<u8>, d3: seq<u8>, oid: seq<u32>, d4: seq<u8>, head: nat)
    requires |OidContents(oid)| < 128
    requires Written(d0, h0, [OBJECT_ID], d1, h0 + 1)
    requires h0 + 1 <= |d2| == |d1| && d2[..h0 + 1] == d1[..h0 + 1]
    requires h0 + 1 <= |d3| == |d1| && d3[..h0 + 1] == d2[..h0 + 1]
    requires Written(d3, h0 + 1, LengthOctets(|OidContents(oid)|) + OidContents(oid), d4, head)
    ensures Written(d0, h0, OidOctets(oid), d4, head)
  {
    hide LengthOctets, OidContents;
    assert OidOctets(oid) == [OBJECT_ID] + (LengthOctets(|OidContents(oid)|) + OidContents(oid));
  }

  // ----- Reading -----

  /** The inner loop: one arc from the octets at the tail, of which left belong to the identifier. */
  method NextArc(actx: Context, left: nat) returns (ok: bool, arc: u32, left1: nat)
    requires actx.tail <= actx.src.Length && left > 0
    modifies actx`tail
    ensures old(actx.tail) <= actx.tail <= actx.src.Length
    ensures !ok ==> old(actx.tail) + left > actx.src.Length
    ensures ok ==> left1 < left && actx.tail + left1 == old(actx.tail) + left
    ensures ok && old(actx.tail) + left <= actx.src.Length ==>
      ReadArc(0, actx.src[old(actx.tail)..old(actx.tail) + left]) == (arc, actx.src[actx.tail..actx.tail + left1])
  {
    hide ReadArc;
    ghost var start, end := actx.tail, actx.tail + left;
    ghost var s := if end <= actx.src.Length then actx.src[start..end] else [];
    var b;
    arc, left1 := 0, left;
    ok, b := actx.NextByte();
    if !ok {
      return;
    }
    arc := b % 128;
    left1 := left - 1;
    ghost var before: nat := 0;
    while b >= 128 && left1 > 0
      invariant left1 < left && actx.tail + left1 == end && start < actx.tail <= actx.src.Length && ok
      invariant arc == Shifted(before, b) && b == actx.src[actx.tail - 1]
      invariant end <= actx.src.Length ==> ReadArc(0, s) == ReadArc(before, actx.src[actx.tail - 1..end])
      decreases left1
    {
      if end <= actx.src.Length {
        ArcGoesOn(before, actx.src[actx.tail - 1..end]);
        assert actx.src[actx.tail - 1..end][1..] == actx.src[actx.tail..end];
      }
      before := arc;
      ok, b := actx.NextByte();
      if !ok {
        return;
      }
      arc := Shifted(arc, b);
      left1 := left1 - 1;
    }
    if end <= actx.src.Length {
      ArcGoesOn(before, actx.src[actx.tail - 1..end]);
      assert actx.src[actx.tail - 1..end][1..] == actx.src[actx.tail..end];
    }
  }

  /** oval <<= 7 and the next seven bits. */
  function Shifted(value: nat, b: u8): u32 {
    (128 * value + b % 128) % 0x1_0000_0000
  }

  lemma ArcGoesOn(value: nat, s: seq<u8>)
    requires s != []
    ensures ReadArc(value, s) == if s[0] < 128 || |s| == 1 then (Shifted(value, s[0]), s[1..]) else ReadArc(Shifted(value, s[0]), s[1..])
  {
  }

  /** The loop over the arcs that follow the first octet. */
  method NextArcs(actx: Context, elements: array<u32>, left: nat) returns (ok: bool, i: nat)
    requires actx.tail <= actx.src.Length && elements.Length == MAX_ELEMENTS && left < MAX_ELEMENTS
    modifies actx`tail, elements
    ensures old(actx.tail) <= actx.tail <= actx.src.Length
    ensures elements[0] == old(elements[0]) && elements[1] == old(elements[1])
    ensures ok <==> old(actx.tail) + left <= actx.src.Length
                    && 2 + |ReadArcs(actx.src[old(actx.tail)..old(actx.tail) + left])| <= MAX_ELEMENTS
    ensures ok ==> actx.tail == old(actx.tail) + left && 2 <= i <= MAX_ELEMENTS
                   && elements[2..i] == ReadArcs(actx.src[old(actx.tail)..actx.tail])
  {
    hide ReadArc;
    ghost var start, end := actx.tail, actx.tail + left;
    ghost var s := if end <= actx.src.Length then actx.src[start..end] else [];
    var left1: nat := left;
    i := 2;
    while left1 > 0 && i < MAX_ELEMENTS
      invariant start <= actx.tail <= actx.src.Length && actx.tail + left1 == end && 2 <= i <= MAX_ELEMENTS
      invariant elements[0] == old(elements[0]) && elements[1] == old(elements[1])
      invariant end <= actx.src.Length ==> ReadArcs(s) == elements[2..i] + ReadArcs(actx.src[actx.tail..end])
      decreases left1
    {
      var arc;
      ghost var here, before := actx.tail, elements[2..i];
      ok, arc, left1 := NextArc(actx, left1);
      if !ok {
        return;
      }
      elements[i] := arc;
      if end <= actx.src.Length {
        ArcsStep(actx.src[here..end], arc, actx.src[actx.tail..end]);
        assert elements[2..i + 1] == before + [arc];
      }
      i := i + 1;
    }
    if end <= actx.src.Length && left1 > 0 {
      SomeArc(actx.src[actx.tail..end]);
    }
    ok := left1 == 0;
  }

  lemma ArcsStep(s: seq<u8>, arc: nat, rest: seq<u8>)
    requires s != [] && ReadArc(0, s) == (arc, rest)
    ensures ReadArcs(s) == [arc] + ReadArcs(rest)
  {
  }

  lemma SomeArc(s: seq<u8>)
    requires s != []
    ensures |ReadArcs(s)| > 0
  {
  }

  /** asn1ber_oid_from_ber. */
  method OidFromBer(actx: Context, elements: array<u32>) returns (ok: bool, length: nat)
    requires actx.tail <= actx.src.Length && elements.Length == MAX_ELEMENTS
    modifies actx`tail, actx`lastError, elements
    ensures old(actx.tail) <= actx.tail <= actx.src.Length
    ensures ok <==> ReadOid(actx.src[old(actx.tail)..]).Some?
    ensures ok ==> length <= MAX_ELEMENTS
                   && ReadOid(actx.src[old(actx.tail)..]) == Some((elements[..length], actx.tail - old(actx.tail)))
  {
    hide ReadLength, ReadOidContents;
    ghost var start, s := actx.tail, actx.src[actx.tail..];
    length := 0;
    var b;
    ok, b := actx.NextByte();
    assert if ok then s != [] && s[0] == b else s == [];
    if !ok {
      return;
    }
    if b != OBJECT_ID {
      actx.lastError := EINVAL;
      return false, 0;
    }
    assert s[1..] == actx.src[actx.tail..];
    var vallen;
    ok, vallen := actx.LengthFromBer();
    if !ok {
      return;
    }
    ghost var used := actx.tail - start - 1;
    if vallen > MAX_ELEMENTS || vallen == 0 {
      actx.lastError := E2BIG;
      return false, 0;
    }
    ok, length := ContentsFromBer(actx, elements, vallen);
    assert actx.src[start + 1 + used..] == s[1 + used..];
    if 1 + used + vallen <= |s| {
      assert s[1 + used..1 + used + vallen] == actx.src[start + 1 + used..start + 1 + used + vallen];
    }
  }

  /** An identifier written into a buffer is read back from it exactly if it survives. */
  method WriteThenRead(oid: seq<u32>, size: nat) returns (ok: bool, back: Option<seq<u32>>)
    requires size < 0x8000_0000
    ensures ok <==> |oid| < 32 && 2 + |OidContents(oid)| < size
    ensures ok ==> (back == Some(oid) <==>
      && 2 <= |oid| <= 31 && oid[1] < 40 && 40 * (oid[0] as int) + oid[1] as int < 128
      && |OidContents(oid)| <= 32)
  {
    hide OidContents, OidOctets, Clobbered, ReadOid;
    var buf, nothing := new u8[size], new u8[0];
    var encoder := new Context(nothing, buf);
    ghost var before := buf[..];
    ok := FromOid(encoder, oid);
    back := None;
    if ok {
      ghost var d := buf[..];
      var decoder := new Context(buf, nothing);
      var elements := new u32[MAX_ELEMENTS];
      var found, length := OidFromBer(decoder, elements);
      assert buf[0..] == d;
      if found {
        back := Some(elements[..length]);
      }
      if |OidContents(oid)| < 128 {
        WrittenFront(before, OidOctets(oid), d, encoder.head);
        OidComesBack(oid, d[encoder.head..]);
      } else {
        var behind := before[2 + |OidContents(oid)|];
        WrittenFront(before, Clobbered(oid, behind), d, encoder.head);
        ClobberedIsRefused(oid, behind, d[encoder.head..]);
      }
    }
  }

  lemma ClobberedIsRefused(oid: seq<u32>, behind: u8, rest: seq<u8>)
    requires 128 <= |OidContents(oid)| < 0x1_0000_0000
    ensures ReadOid(Clobbered(oid, behind) + rest) == None && !Survives(oid)
  {
    hide OidContents, LengthOctets, ReadLength;
    var contents := OidContents(oid);
    var s := Clobbered(oid, behind) + rest;
    LengthRoundTrip(|contents|, contents[1..] + [behind] + rest);
    assert s[1..] == LengthOctets(|contents|) + (contents[1..] + [behind] + rest);
    assert ReadLength(s[1..]) == Some((|contents|, |LengthOctets(|contents|)|));
  }

  lemma WrittenFront(d0: seq<u8>, s: seq<u8>, d: seq<u8>, head: nat)
    requires Written(d0, 0, s, d, head)
    ensures d == s + d[head..]
  {
  }

  /** The value: the first octet, which makes two elements, and the arcs. */
  method ContentsFromBer(actx: Context, elements: array<u32>, vallen: nat) returns (ok: bool, length: nat)
    requires actx.tail <= actx.src.Length && elements.Length == MAX_ELEMENTS && 0 < vallen <= MAX_ELEMENTS
    modifies actx`tail, actx`lastError, elements
    ensures old(actx.tail) <= actx.tail <= actx.src.Length
    ensures ok <==> old(actx.tail) + vallen <= actx.src.Length
                    && ReadOidContents(actx.src[old(actx.tail)..old(actx.tail) + vallen]).Some?
    ensures ok ==> length <= MAX_ELEMENTS && actx.tail == old(actx.tail) + vallen
                   && ReadOidContents(actx.src[old(actx.tail)..actx.tail]) == Some(elements[..length])
  {
    hide ReadArcs;
    ghost var from := actx.tail;
    ghost var contents := if from + vallen <= actx.src.Length then actx.src[from..from + vallen] else [];
    length := 0;
    var b;
    ok, b := actx.NextByte();
    if !ok {
      return;
    }
    elements[0] := b / 40;
    elements[1] := b - b / 40 * 40;
    assert b - b / 40 * 40 == b % 40;
    ok, length := NextArcs(actx, elements, vallen - 1);
    if from + vallen <= actx.src.Length {
      assert contents[0] == b && contents[1..] == actx.src[from + 1..from + vallen];
      if ok {
        assert elements[..length] == [b / 40, b % 40] + elements[2..length];
      }
    }
    if !ok {
      actx.lastError := E2BIG;
    }
  }

  /** 1.3.6.1.4.1.311 by its octets. */
  lemma MicrosoftOid()
    ensures OidOctets([1, 3, 6, 1, 4, 1, 311]) == [0x06, 7, 0x2b, 0x06, 0x01, 0x04, 0x01, 0x82, 0x37]
  {
    hide Arcs, SingleOid;
    var oid: seq<u32> := [1, 3, 6, 1, 4, 1, 311];
    SmallOid(43);
    LargeOid();
    var a: seq<u32> := [1] + [311];
    var b: seq<u32> := [4] + a;
    var c: seq<u32> := [1] + b;
    SmallArcs([311], [0x82, 0x37], 1);
    SmallArcs(a, [1] + [0x82, 0x37], 4);
    SmallArcs(b, [4] + ([1] + [0x82, 0x37]), 1);
    SmallArcs(c, [1] + ([4] + ([1] + [0x82, 0x37])), 6);
    assert oid[2..] == [6] + c;
    assert OidContents(oid) == SingleOid(43) + Arcs(oid[2..]);
  }

  lemma SmallArcs(elements: seq<u32>, octets: seq<u8>, n: u32)
    requires Arcs(elements) == octets && n < 128
    ensures Arcs([n] + elements) == [n] + octets
  {
    SmallOid(n);
    assert ([n] + elements)[1..] == elements;
  }

  lemma SmallOid(n: nat)
    requires n < 128
    ensures SingleOid(n) == [n]
  {
  }

  lemma LargeOid()
    ensures SingleOid(311) == [0x82, 0x37] && Arcs([311]) == [0x82, 0x37]
  {
    assert Continued(2) == Continued(0) + [130];
    assert Arcs([311]) == SingleOid(311) + Arcs([311][1..]);
  }
}
