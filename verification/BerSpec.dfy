/** The definite-length basic encoding of section 8.1 of X.690, and its object identifiers of section 8.19. */
module BerSpec {
  import opened Octets
  import opened Wrappers

  // ----- Numbers, most significant octet first -----

  function Value(s: seq<u8>): nat {
    if s == [] then 0 else 256 * Value(s[..|s| - 1]) + s[|s| - 1]
  }

  /** How many octets a number needs; none for zero. */
  function OctetCount(n: nat): nat {
    if n == 0 then 0 else 1 + OctetCount(n / 256)
  }

  lemma {:induction false} ValueOfOctets(n: nat, count: nat)
    requires OctetCount(n) <= count
    ensures Value(BigEndian(n, count)) == n
  {
    if count > 0 {
      ValueOfOctets(n / 256, count - 1);
      assert BigEndian(n, count)[..count - 1] == BigEndian(n / 256, count - 1);
    }
  }

  lemma {:induction false} OctetCountFits(n: nat, count: nat)
    requires n < Pow256(count)
    ensures OctetCount(n) <= count
  {
    if n > 0 {
      OctetCountFits(n / 256, count - 1);
    }
  }

  lemma OctetCountOfWord(n: u32)
    ensures OctetCount(n) <= 4
  {
    Pow256Values();
    OctetCountFits(n, 4);
  }

  // ----- Lengths, section 8.1.3 -----

  /** The short form below 128 and otherwise the shortest long form. */
  function LengthOctets(n: u32): (r: seq<u8>)
    ensures 1 <= |r| <= 5
  {
    OctetCountOfWord(n);
    if n < 128 then [n] else [128 + OctetCount(n)] + BigEndian(n, OctetCount(n))
  }

  /** What asn1ber_length_from_ber finds at the front, and how many octets that took. */
  function ReadLength(s: seq<u8>): Option<(nat, nat)> {
    if s == [] then None
    else if s[0] < 128 then Some((s[0], 1))
    else
      var count := s[0] % 128;
      if count > 4 || 1 + count > |s| then None else Some((Value(s[1..1 + count]), 1 + count))
  }

  lemma LengthRoundTrip(n: u32, rest: seq<u8>)
    ensures ReadLength(LengthOctets(n) + rest) == Some((n, |LengthOctets(n)|))
  {
    hide BigEndian, Value, OctetCount;
    OctetCountOfWord(n);
    var count := OctetCount(n);
    ValueOfOctets(n, count);
    if n >= 128 {
      var s := LengthOctets(n) + rest;
      assert s[0] == 128 + count;
      assert s[1..1 + count] == BigEndian(n, count);
    }
  }

  // ----- Trees -----

  /** A branch also says how many octets its writer sets aside for the length. */
  datatype Tree = Leaf(tag: u8, contents: seq<u8>) | Branch(tag: u8, reserve: nat, children: seq<Tree>)

  function Body(t: Tree): seq<u8>
    decreases t, 0
  {
    match t
    case Leaf(_, contents) => contents
    case Branch(_, _, children) => Bodies(children)
  }

  function Bodies(ts: seq<Tree>): seq<u8>
    decreases ts, 0
  {
    if ts == [] then [] else Encoding(ts[0]) + Bodies(ts[1..])
  }

  /** Sizes that a 32-bit length can say. */
  function Encoding(t: Tree): seq<u8>
    decreases t, 1
  {
    if |Body(t)| < 0x1_0000_0000 then [t.tag] + LengthOctets(|Body(t)|) + Body(t) else []
  }

  /** Single-octet tags; the constructed bit, 0x20, on branches and only there; and bodies a length can measure. */
  ghost predicate WellFormed(t: Tree) {
    && t.tag % 32 != 31
    && |Body(t)| < 0x8000_0000
    && match t
       case Leaf(tag, _) => tag / 32 % 2 == 0
       case Branch(tag, _, children) =>
         tag / 32 % 2 == 1 && forall i :: 0 <= i < |children| ==> WellFormed(children[i])
  }

  /** ber_typecode_from_ber: a tag and how many octets it took. */
  function ReadTypecode(s: seq<u8>): Option<(nat, nat)> {
    if s == [] then None
    else if s[0] % 32 != 31 then Some((s[0], 1))
    else if |s| == 1 then None
    else Some((if s[1] >= 0x30 then s[1] - 0x30 else s[1], 2))
  }

  function ReadTypelen(s: seq<u8>): Option<(nat, nat, nat)> {
    match ReadTypecode(s)
    case None => None
    case Some((tag, used)) =>
      match ReadLength(s[used..])
      case None => None
      case Some((length, more)) => Some((tag, length, used + more))
  }

  lemma TypelenRoundTrip(tag: u8, n: u32, rest: seq<u8>)
    requires tag % 32 != 31
    ensures ReadTypelen([tag] + LengthOctets(n) + rest) == Some((tag, n, 1 + |LengthOctets(n)|))
  {
    hide LengthOctets, ReadLength;
    var s := [tag] + LengthOctets(n) + rest;
    assert s[1..] == LengthOctets(n) + rest;
    LengthRoundTrip(n, rest);
  }

  /** The trees that fill s, read header by header; a constructed body is read in turn. */
  function Read(s: seq<u8>): Option<seq<Tree>>
    decreases |s|
  {
    if s == [] then Some([]) else
      match ReadTypelen(s)
      case None => None
      case Some((tag, length, used)) =>
        if used + length > |s| || tag > 255 || used == 0 then None
        else
          var body, others := s[used..used + length], Read(s[used + length..]);
          if others.None? then None
          else if tag / 32 % 2 == 0 then Some([Leaf(tag, body)] + others.value)
          else
            var children := Read(body);
            if children.None? then None else Some([Branch(tag, 0, children.value)] + others.value)
  }

  function Bare(t: Tree): Tree {
    match t
    case Leaf(_, _) => t
    case Branch(tag, _, children) => Branch(tag, 0, AllBare(children))
  }

  function AllBare(ts: seq<Tree>): (r: seq<Tree>)
    ensures |r| == |ts|
  {
    if ts == [] then [] else [Bare(ts[0])] + AllBare(ts[1..])
  }

  /** Reading what was written gives the trees back. */
  lemma {:induction false} ReadUndoes(ts: seq<Tree>)
    requires forall i :: 0 <= i < |ts| ==> WellFormed(ts[i])
    ensures Read(Bodies(ts)) == Some(AllBare(ts))
  {
    hide ReadTypelen, LengthOctets;
    if ts != [] {
      var t, body, rest := ts[0], Body(ts[0]), Bodies(ts[1..]);
      var head := [t.tag] + LengthOctets(|body|);
      var s := Bodies(ts);
      assert s == head + body + rest && s == head + (body + rest);
      TypelenRoundTrip(t.tag, |body|, body + rest);
      assert s[|head|..|head| + |body|] == body;
      assert s[|head| + |body|..] == rest;
      ReadUndoes(ts[1..]);
      if t.Branch? {
        ReadUndoes(t.children);
      }
    }
  }

  /** The same for a single tree. */
  lemma TreeRoundTrip(t: Tree)
    requires WellFormed(t)
    ensures Read(Encoding(t)) == Some([Bare(t)])
  {
    ReadUndoes([t]);
    assert Bodies([t]) == Encoding(t);
    assert AllBare([t]) == [Bare(t)];
  }

  // ----- Object identifiers, section 8.19 -----

  const MAX_ELEMENTS := 32

  function Continued(n: nat): seq<u8> {
    if n == 0 then [] else Continued(n / 128) + [128 + n % 128]
  }

  /** Groups of seven bits, most significant first, the high bit set on all but the last. */
  function SingleOid(n: nat): (r: seq<u8>)
    ensures |r| > 0
  {
    Continued(n / 128) + [n % 128]
  }

  function Arcs(elements: seq<u32>): seq<u8> {
    if elements == [] then [] else SingleOid(elements[0]) + Arcs(elements[1..])
  }

  /** What the first two elements make together, in 32 bits. */
  function Joint(oid: seq<u32>): u32
    requires |oid| > 1
  {
    (40 * (oid[0] as int) + oid[1] as int) % 0x1_0000_0000
  }

  /** The first two elements share a group, unless the first is 40 or more. */
  function OidContents(oid: seq<u32>): seq<u8> {
    if |oid| > 1 && oid[0] < 40 then SingleOid(Joint(oid)) + Arcs(oid[2..]) else Arcs(oid)
  }

  /** One arc from the front: its value modulo 2^32 and the octets left; it may end with the input. */
  function ReadArc(value: nat, s: seq<u8>): (r: (nat, seq<u8>))
    requires s != []
    ensures |r.1| < |s|
    decreases |s|
  {
    var v := (128 * value + s[0] % 128) % 0x1_0000_0000;
    if s[0] < 128 || |s| == 1 then (v, s[1..]) else ReadArc(v, s[1..])
  }

  function ReadArcs(s: seq<u8>): seq<nat>
    decreases |s|
  {
    if s == [] then [] else
      var (v, rest) := ReadArc(0, s);
      [v] + ReadArcs(rest)
  }

  /** asn1ber_oid_from_ber on the content octets. */
  function ReadOidContents(s: seq<u8>): (r: Option<seq<nat>>)
    ensures r.Some? ==> 1 <= |s| <= MAX_ELEMENTS && 2 <= |r.value| <= MAX_ELEMENTS
  {
    if s == [] || |s| > MAX_ELEMENTS then None
    else
      var arcs := ReadArcs(s[1..]);
      if 2 + |arcs| > MAX_ELEMENTS then None else Some([s[0] / 40, s[0] % 40] + arcs)
  }

  /** Section 8.19.2: as few groups as possible. */
  lemma {:induction false} ContinuedIsMinimal(n: nat)
    requires n > 0
    ensures |Continued(n)| > 0 && Continued(n)[0] > 128
  {
    if n >= 128 {
      ContinuedIsMinimal(n / 128);
    } else {
      assert Continued(n / 128) == [];
    }
  }

  lemma SingleOidIsMinimal(n: nat)
    ensures SingleOid(n)[0] != 128
  {
    if n >= 128 {
      ContinuedIsMinimal(n / 128);
    }
  }

  lemma Regrouped(n: u32)
    ensures (128 + n % 128) % 128 == n % 128 == n % 128 % 128
    ensures (128 * (n / 128) + n % 128) % 0x1_0000_0000 == n
  {
  }

  /** The leading groups build up the value they stand for. */
  lemma {:induction false} ReadContinued(n: nat, rest: seq<u8>)
    requires n < 0x1_0000_0000 && rest != []
    ensures ReadArc(0, Continued(n) + rest) == ReadArc(n, rest)
  {
    if n == 0 {
      assert Continued(n) + rest == rest;
    } else {
      var last := [128 + n % 128] + rest;
      assert Continued(n) + rest == Continued(n / 128) + last;
      ReadContinued(n / 128, last);
      assert last[1..] == rest;
      Regrouped(n);
    }
  }

  lemma ReadSingle(n: u32, rest: seq<u8>)
    ensures ReadArc(0, SingleOid(n) + rest) == (n, rest)
  {
    var last := [n % 128] + rest;
    assert SingleOid(n) + rest == Continued(n / 128) + last;
    ReadContinued(n / 128, last);
    assert last[1..] == rest;
    Regrouped(n);
  }

  lemma {:induction false} ReadArcsUndoes(elements: seq<u32>)
    ensures ReadArcs(Arcs(elements)) == elements
  {
    hide SingleOid, ReadArc;
    if elements != [] {
      ReadSingle(elements[0], Arcs(elements[1..]));
      ReadArcsUndoes(elements[1..]);
    }
  }

  /** The identifiers that survive: exactly those whose first two elements fit one group as the reader splits it. */
  predicate Survives(oid: seq<u32>) {
    && 2 <= |oid| <= MAX_ELEMENTS
    && oid[1] < 40 && 40 * (oid[0] as int) + oid[1] as int < 128
    && |OidContents(oid)| <= MAX_ELEMENTS
  }

  lemma OidRoundTrip(oid: seq<u32>)
    ensures ReadOidContents(OidContents(oid)) == Some(oid) <==> Survives(oid)
  {
    if Survives(oid) {
      SurvivorComesBack(oid);
    } else if |OidContents(oid)| <= MAX_ELEMENTS && 2 <= |oid| <= MAX_ELEMENTS {
      OthersDoNot(oid);
    }
  }

  lemma SurvivorComesBack(oid: seq<u32>)
    requires Survives(oid)
    ensures ReadOidContents(OidContents(oid)) == Some(oid)
  {
    hide Arcs, ReadArcs;
    var s, first := OidContents(oid), Joint(oid);
    assert SingleOid(first) == [first];
    assert s[1..] == Arcs(oid[2..]);
    ReadArcsUndoes(oid[2..]);
    assert s[0] / 40 == oid[0] && s[0] % 40 == oid[1];
    assert oid == [oid[0], oid[1]] + oid[2..];
  }

  lemma OthersDoNot(oid: seq<u32>)
    requires |oid| >= 2 && (oid[1] >= 40 || 40 * (oid[0] as int) + oid[1] as int >= 128)
    ensures ReadOidContents(OidContents(oid)) != Some(oid)
  {
    hide Arcs, ReadArcs, SingleOid;
    if oid[0] < 40 && oid[1] < 40 {
      FirstGroupTells(Joint(oid));
      if Joint(oid) == 129 {
        assert OidContents(oid)[1..] == [1] + Arcs(oid[2..]);
        ReadOne(oid[2..]);
        assert |[OidContents(oid)[0] / 40, OidContents(oid)[0] % 40] + ([1] + oid[2..])| == |oid| + 1;
      }
    }
  }

  /** 129 is the one number whose first group looks like itself when it takes two. */
  lemma FirstGroupTells(n: u32)
    ensures 128 <= n && SingleOid(n)[0] == n ==> n == 129
    ensures SingleOid(129) == [129, 1]
  {
    assert Continued(1) == Continued(0) + [129];
    if 128 <= n < 256 {
      assert n / 128 == 1;
    }
  }

  lemma ReadOne(elements: seq<u32>)
    ensures ReadArcs([1] + Arcs(elements)) == [1] + elements
  {
    ReadArcsUndoes(elements);
    assert ReadArc(0, [1] + Arcs(elements)) == (1, Arcs(elements));
  }

  // ----- The octets themselves -----

  /** Section 8.1.3: one octet below 128, otherwise the number of octets that follow and those, by their weights. */
  lemma LengthByRange(n: u32)
    ensures LengthOctets(n) ==
      if n < 128 then [n]
      else if n < 0x100 then [0x81, n]
      else if n < 0x1_0000 then [0x82, n / 0x100, n % 0x100]
      else if n < 0x100_0000 then [0x83, n / 0x1_0000, n / 0x100 % 0x100, n % 0x100]
      else [0x84, n / 0x100_0000, n / 0x1_0000 % 0x100, n / 0x100 % 0x100, n % 0x100]
  {
    var a, b, c := n / 256, n / 256 / 256, n / 256 / 256 / 256;
    OctetsByRange(n);
    assert BigEndian(n, 1) == [n % 256];
    assert BigEndian(n, 2) == BigEndian(a, 1) + [n % 256];
    assert BigEndian(n, 3) == BigEndian(a, 2) + [n % 256] && BigEndian(a, 2) == BigEndian(b, 1) + [a % 256];
    assert BigEndian(n, 4) == BigEndian(a, 3) + [n % 256] && BigEndian(a, 3) == BigEndian(b, 2) + [a % 256]
      && BigEndian(b, 2) == BigEndian(c, 1) + [b % 256];
  }

  lemma OctetsByRange(n: u32)
    ensures OctetCount(n) ==
      if n == 0 then 0 else if n < 0x100 then 1 else if n < 0x1_0000 then 2 else if n < 0x100_0000 then 3 else 4
  {
    var a, b, c := n / 256, n / 256 / 256, n / 256 / 256 / 256;
    assert n > 0 ==> OctetCount(n) == 1 + OctetCount(a);
    assert a > 0 ==> OctetCount(a) == 1 + OctetCount(b);
    assert b > 0 ==> OctetCount(b) == 1 + OctetCount(c);
    assert c > 0 ==> OctetCount(c) == 1 + OctetCount(c / 256);
  }

  /** A sequence of an octet string and an integer. */
  lemma SequenceOctets(a: u8, b: u8, c: u8)
    ensures Encoding(Branch(0x30, 5, [Leaf(0x04, [a, b]), Leaf(0x02, [c])]))
         == [0x30, 7, 0x04, 2, a, b, 0x02, 1, c]
  {
    var first, second := Leaf(0x04, [a, b]), Leaf(0x02, [c]);
    assert Encoding(first) == [0x04, 2, a, b] && Encoding(second) == [0x02, 1, c];
    assert Bodies([second]) == Encoding(second) + Bodies([]);
    assert [first, second][1..] == [second] && [second][1..] == [];
    assert Bodies([first, second]) == [0x04, 2, a, b, 0x02, 1, c];
  }

  /** A second octet of 0x30 and more after the escape is taken less that. */
  lemma EscapedTypecode(first: u8, second: u8)
    ensures ReadTypecode([first, second]) ==
      if first in {31, 63, 95, 127, 159, 191, 223, 255}
      then Some((if second < 48 then second else second - 48, 2)) else Some((first, 1))
  {
  }
}
