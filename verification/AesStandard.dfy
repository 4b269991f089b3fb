/** What FIPS 197 says of AES-128, octet by octet, without the functions that the code is proved against. */
module AesStandard {
  import opened AesField
  import opened AesTables
  import opened Aes

  // ----- The key schedule, section 5.2 -----

  /** The first four words are the key. Octet j of word i is octet j of word i - 4 combined with octet j of the word
      before, which in every fourth word is turned by one octet, substituted and combined with the round constant. */
  ghost predicate IsSchedule(key: Block, e: Schedule) {
    && (forall k :: 0 <= k < 16 ==> e[k] == key[k])
    && forall i, j :: 4 <= i < 44 && 0 <= j < 4 ==> IsScheduleOctet(e, i, j)
  }

  /** Octet j of word i. */
  function OctetAt(e: Schedule, i: nat, j: nat): bv8
    requires i < 44 && j < 4
  {
    e[4 * i + j]
  }

  ghost predicate IsScheduleOctet(e: Schedule, i: nat, j: nat)
    requires 4 <= i < 44 && j < 4
  {
    OctetAt(e, i, j) == NextOctet(i, j, OctetAt(e, i - 4, j), OctetAt(e, i - 1, j), OctetAt(e, i - 1, (j + 1) % 4))
  }

  /** From octet j of word i - 4, and octets j and j + 1 of word i - 1. */
  function NextOctet(i: nat, j: nat, back: bv8, last: bv8, turned: bv8): bv8
    requires 4 <= i < 44 && j < 4
  {
    if i % 4 != 0 then Sum(back, last) else Sum(Sum(back, SBox(turned)), if j == 0 then Rcon(i / 4) else 0)
  }

  lemma ScheduleOctets(key: Block)
    ensures IsSchedule(key, Expansion(key))
  {
    hide KeyWord, IsScheduleOctet;
    var e := Expansion(key);
    forall k | 0 <= k < 16
      ensures e[k] == key[k]
    {
      FirstWords(key, k / 4);
    }
    forall i, j | 4 <= i < 44 && 0 <= j < 4
      ensures IsScheduleOctet(e, i, j)
    {
      ScheduleOctet(key, i, j);
    }
  }

  lemma FirstWords(key: Block, i: nat)
    requires i < 4
    ensures KeyWord(key, i) == key[4 * i..4 * i + 4]
  {
  }

  lemma ExpansionAt(key: Block, i: nat, j: nat)
    requires i < 44 && j < 4
    ensures OctetAt(Expansion(key), i, j) == KeyWord(key, i)[j]
  {
    hide KeyWord;
    assert (4 * i + j) / 4 == i && (4 * i + j) % 4 == j;
  }

  lemma ScheduleOctet(key: Block, i: nat, j: nat)
    requires 4 <= i < 44 && j < 4
    ensures IsScheduleOctet(Expansion(key), i, j)
  {
    hide KeyWord, Expansion, OctetAt, NextOctet;
    ExpansionAt(key, i, j);
    ExpansionAt(key, i - 4, j);
    ExpansionAt(key, i - 1, j);
    ExpansionAt(key, i - 1, (j + 1) % 4);
    LaterWordAt(key, i, j);
  }

  lemma LaterWordAt(key: Block, i: nat, j: nat)
    requires 4 <= i < 44 && j < 4
    ensures var back, last := KeyWord(key, i - 4), KeyWord(key, i - 1);
      KeyWord(key, i)[j] == NextOctet(i, j, back[j], last[j], last[(j + 1) % 4])
  {
    hide Sum, SBox, Rcon, KeyWord, Xor, SubWord, RotWord;
    LaterWord(key, i);
    var back, last := KeyWord(key, i - 4), KeyWord(key, i - 1);
    if i % 4 != 0 {
      XorAt(back, last, j);
    } else {
      MangledAt(back, last, Rcon(i / 4), j);
    }
  }

  lemma MangledAt(back: Word, last: Word, constant: bv8, j: nat)
    requires j < 4
    ensures Xor(back, Xor(SubWord(RotWord(last)), [constant, 0, 0, 0]))[j]
         == Sum(Sum(back[j], SBox(last[(j + 1) % 4])), if j == 0 then constant else 0)
  {
    hide Sum, SBox, Xor, SubWord, RotWord;
    var turned, word := SubWord(RotWord(last)), [constant, 0, 0, 0];
    XorAt(back, Xor(turned, word), j);
    XorAt(turned, word, j);
    TurnedAt(last, j);
    Regrouped(back[j], turned[j], word[j]);
  }

  lemma LaterWord(key: Block, i: nat)
    requires 4 <= i < 44
    ensures var back, last := KeyWord(key, i - 4), KeyWord(key, i - 1);
      KeyWord(key, i) ==
        if i % 4 != 0 then Xor(back, last) else Xor(back, Xor(SubWord(RotWord(last)), [Rcon(i / 4), 0, 0, 0]))
  {
    hide Xor, SubWord, RotWord, Rcon;
  }

  lemma XorAt(a: Word, b: Word, j: nat)
    requires j < 4
    ensures Xor(a, b)[j] == Sum(a[j], b[j])
  {
    hide Sum;
    match j
    case 0 =>
    case 1 =>
    case 2 =>
    case _ =>
  }

  lemma TurnedAt(w: Word, j: nat)
    requires j < 4
    ensures SubWord(RotWord(w))[j] == SBox(w[(j + 1) % 4])
  {
    hide SBox;
    match j
    case 0 =>
    case 1 =>
    case 2 =>
    case _ =>
  }

  lemma Regrouped(x: bv8, y: bv8, z: bv8)
    ensures Sum(x, Sum(y, z)) == Sum(Sum(x, y), z)
  {
  }

  /** The key of appendix A.1 and its word 4. */
  const KEY: Block := [0x2b, 0x7e, 0x15, 0x16, 0x28, 0xae, 0xd2, 0xa6, 0xab, 0xf7, 0x15, 0x88, 0x09, 0xcf, 0x4f, 0x3c]

  lemma AppendixA1()
    ensures KeyWord(KEY, 4) == [0xa0, 0xfa, 0xfe, 0x17]
    ensures forall j :: 0 <= j < 4 ==> OctetAt(Expansion(KEY), 4, j) == KeyWord(KEY, 4)[j]
  {
    hide KeyWord, SBox, Expansion;
    FirstWords(KEY, 0);
    FirstWords(KEY, 3);
    LaterWord(KEY, 4);
    SubstitutedByA1();
    forall j | 0 <= j < 4
      ensures OctetAt(Expansion(KEY), 4, j) == KeyWord(KEY, 4)[j]
    {
      ExpansionAt(KEY, 4, j);
    }
  }

  lemma SubstitutedByA1()
    ensures SBox(0xcf) == 0x8a && SBox(0x4f) == 0x84 && SBox(0x3c) == 0xeb && SBox(0x09) == 0x01
  {
  }

  // ----- The rounds, sections 5.1 and 5.4 -----

  /** Octet i of column c once the octets are substituted and row i has moved i columns to the left. */
  function Moved(s: Block, c: nat, i: nat): bv8
    requires c < 4 && i < 4
  {
    SBox(s[4 * ((c + i) % 4) + i])
  }

  /** Row r of the matrix of section 5.1.3 times column c. */
  function Mixed(s: Block, c: nat, r: nat): bv8
    requires c < 4 && r < 4
  {
    FieldProduct(Moved(s, c, r), 0x02) ^ FieldProduct(Moved(s, c, (r + 1) % 4), 0x03)
    ^ Moved(s, c, (r + 2) % 4) ^ Moved(s, c, (r + 3) % 4)
  }

  /** The key goes in before the first round and after every round; the last round does not mix. */
  ghost predicate IsRun(input: Block, e: Schedule, states: seq<Block>, output: Block) {
    && |states| == 10
    && (forall k :: 0 <= k < 16 ==> states[0][k] == input[k] ^ e[k])
    && (forall round, c, r :: 1 <= round < 10 && 0 <= c < 4 && 0 <= r < 4 ==> IsRoundOctet(e, states, round, c, r))
    && forall c, r :: 0 <= c < 4 && 0 <= r < 4 ==> IsLastOctet(e, states[9], output, c, r)
  }

  ghost predicate IsLastOctet(e: Schedule, s: Block, output: Block, c: nat, r: nat)
    requires c < 4 && r < 4
  {
    output[4 * c + r] == Moved(s, c, r) ^ e[160 + 4 * c + r]
  }

  ghost predicate IsRoundOctet(e: Schedule, states: seq<Block>, round: nat, c: nat, r: nat)
    requires 1 <= round < |states| <= 10 && c < 4 && r < 4
  {
    states[round][4 * c + r] == Mixed(states[round - 1], c, r) ^ e[16 * round + 4 * c + r]
  }

  /** What the cipher computes is what the standard says. */
  lemma EncryptedIsStandard(key: Block, input: Block)
    ensures IsSchedule(key, Expansion(key))
    ensures IsRun(input, Expansion(key), seq(10, r requires 0 <= r < 10 => Rounds(input, Expansion(key), r)),
                  Encrypted(key, input))
  {
    hide Expansion, IsSchedule, Rounds, Moved, Mixed, Cipher;
    var e := Expansion(key);
    var states: seq<Block> := seq(10, r requires 0 <= r < 10 => Rounds(input, e, r));
    ScheduleOctets(key);
    FirstState(input, e);
    forall round, c, r | 1 <= round < 10 && 0 <= c < 4 && 0 <= r < 4
      ensures IsRoundOctet(e, states, round, c, r)
    {
      RoundOctet(input, e, round, c, r);
    }
    forall c, r | 0 <= c < 4 && 0 <= r < 4
      ensures IsLastOctet(e, states[9], Encrypted(key, input), c, r)
    {
      LastRound(input, e, c, r);
    }
  }

  lemma FirstState(s: Block, keys: Schedule)
    ensures forall k :: 0 <= k < 16 ==> Rounds(s, keys, 0)[k] == s[k] ^ keys[k]
  {
  }

  lemma RoundOctet(s: Block, keys: Schedule, round: nat, c: nat, r: nat)
    requires 1 <= round < 10 && c < 4 && r < 4
    ensures Rounds(s, keys, round)[4 * c + r]
         == Mixed(Rounds(s, keys, round - 1), c, r) ^ keys[16 * round + 4 * c + r]
  {
    hide Moved, FieldProduct, MixByte, MixColumns, SubBytes, ShiftRows;
    var p := Rounds(s, keys, round - 1);
    var moved := ShiftRows(SubBytes(p));
    MovedAre(p, c);
    MixedOctet(moved, c, r);
    MixIsStandard(moved[4 * c + r], moved[4 * c + (r + 1) % 4], moved[4 * c + (r + 2) % 4], moved[4 * c + (r + 3) % 4]);
  }

  lemma LastRound(s: Block, keys: Schedule, c: nat, r: nat)
    requires c < 4 && r < 4
    ensures Cipher(s, keys)[4 * c + r] == Moved(Rounds(s, keys, 9), c, r) ^ keys[160 + 4 * c + r]
  {
    hide Moved, Rounds, SubBytes, ShiftRows;
    MovedAre(Rounds(s, keys, 9), c);
  }

  lemma MovedAre(p: Block, c: nat)
    requires c < 4
    ensures forall i :: 0 <= i < 4 ==> ShiftRows(SubBytes(p))[4 * c + i] == Moved(p, c, i)
  {
    hide SBox;
    forall i | 0 <= i < 4
      ensures ShiftRows(SubBytes(p))[4 * c + i] == Moved(p, c, i)
    {
      assert (4 * c + i) / 4 == c && (4 * c + i) % 4 == i;
    }
  }

  lemma MixedOctet(s: Block, c: nat, r: nat)
    requires c < 4 && r < 4
    ensures MixColumns(s)[4 * c + r]
         == MixByte(s[4 * c + r], s[4 * c + (r + 1) % 4], s[4 * c + (r + 2) % 4], s[4 * c + (r + 3) % 4])
  {
    hide MixByte, MixColumn;
    MixColumnAt(Column(s, c), r);
  }

  lemma MixColumnAt(w: Word, r: nat)
    requires r < 4
    ensures MixColumn(w)[r] == MixByte(w[r], w[(r + 1) % 4], w[(r + 2) % 4], w[(r + 3) % 4])
  {
    hide MixByte;
    match r
    case 0 =>
    case 1 =>
    case 2 =>
    case _ =>
  }
}
