/** AES-128 as lib/aes_reference.c computes it: the key schedule, the cipher and its inverse work in place on byte
    arrays. Byte j of column i of the state is element 4 * i + j, as in the C array of arrays. */
module Aes {
  import opened AesField
  import opened AesTables

  const NK := 4
  const NR := 10

  type Block = s: seq<bv8> | |s| == 16 witness seq(16, _ => 0)
  type Word = w: seq<bv8> | |w| == 4 witness [0, 0, 0, 0]
  type Schedule = s: seq<bv8> | |s| == 176 witness seq(176, _ => 0)

  // ----- The transformations of sections 5.1 and 5.3 of FIPS 197 -----

  function AddRoundKey(s: Block, keys: Schedule, round: nat): Block
    requires round <= NR
  {
    seq(16, k requires 0 <= k < 16 => s[k] ^ keys[16 * round + k])
  }

  function SubBytes(s: Block): Block {
    seq(16, k requires 0 <= k < 16 => SBox(s[k]))
  }

  function InvSubBytes(s: Block): Block {
    seq(16, k requires 0 <= k < 16 => InvSBox(s[k]))
  }

  /** Row r moves r columns to the left. */
  function ShiftRows(s: Block): Block {
    seq(16, k requires 0 <= k < 16 => s[4 * ((k / 4 + k % 4) % 4) + k % 4])
  }

  /** Row r moves r columns to the right. */
  function InvShiftRows(s: Block): Block {
    seq(16, k requires 0 <= k < 16 => s[4 * ((k / 4 + 4 - k % 4) % 4) + k % 4])
  }

  function MixColumn(w: Word): Word {
    [MixByte(w[0], w[1], w[2], w[3]), MixByte(w[1], w[2], w[3], w[0]),
     MixByte(w[2], w[3], w[0], w[1]), MixByte(w[3], w[0], w[1], w[2])]
  }

  function UnmixColumn(w: Word): Word {
    [UnmixByte(w[0], w[1], w[2], w[3]), UnmixByte(w[1], w[2], w[3], w[0]),
     UnmixByte(w[2], w[3], w[0], w[1]), UnmixByte(w[3], w[0], w[1], w[2])]
  }

  function Column(s: Block, i: nat): Word
    requires i < 4
  {
    s[4 * i..4 * i + 4]
  }

  function MixColumns(s: Block): Block {
    MixColumn(Column(s, 0)) + MixColumn(Column(s, 1)) + MixColumn(Column(s, 2)) + MixColumn(Column(s, 3))
  }

  function InvMixColumns(s: Block): Block {
    UnmixColumn(Column(s, 0)) + UnmixColumn(Column(s, 1)) + UnmixColumn(Column(s, 2)) + UnmixColumn(Column(s, 3))
  }

  // ----- Each transformation is undone -----

  lemma AddRoundKeyTwice(s: Block, keys: Schedule, round: nat)
    requires round <= NR
    ensures AddRoundKey(AddRoundKey(s, keys, round), keys, round) == s
  {
  }

  lemma InvSubBytesUndoes(s: Block)
    ensures InvSubBytes(SubBytes(s)) == s
  {
    hide SBox, InvSBox;
    forall k | 0 <= k < 16
      ensures InvSubBytes(SubBytes(s))[k] == s[k]
    {
      SBoxInverse(s[k]);
    }
  }

  lemma InvShiftRowsUndoes(s: Block)
    ensures InvShiftRows(ShiftRows(s)) == s
  {
  }

  lemma UnmixColumnUndoes(w: Word)
    ensures UnmixColumn(MixColumn(w)) == w
  {
    hide MixByte, UnmixByte;
    UnmixMix(w[0], w[1], w[2], w[3]);
    UnmixMix(w[1], w[2], w[3], w[0]);
    UnmixMix(w[2], w[3], w[0], w[1]);
    UnmixMix(w[3], w[0], w[1], w[2]);
  }

  lemma InvMixColumnsUndoes(s: Block)
    ensures InvMixColumns(MixColumns(s)) == s
  {
    hide MixColumn, UnmixColumn;
    forall i | 0 <= i < 4
      ensures Column(MixColumns(s), i) == MixColumn(Column(s, i))
    {
    }
    UnmixColumnUndoes(Column(s, 0));
    UnmixColumnUndoes(Column(s, 1));
    UnmixColumnUndoes(Column(s, 2));
    UnmixColumnUndoes(Column(s, 3));
  }

  // ----- The cipher, figure 5 of FIPS 197, and its inverse, figure 12 -----

  /** The state after the given number of full rounds. */
  function Rounds(s: Block, keys: Schedule, round: nat): Block
    requires round < NR
  {
    if round == 0 then AddRoundKey(s, keys, 0)
    else AddRoundKey(MixColumns(ShiftRows(SubBytes(Rounds(s, keys, round - 1)))), keys, round)
  }

  function Cipher(s: Block, keys: Schedule): Block {
    AddRoundKey(ShiftRows(SubBytes(Rounds(s, keys, NR - 1))), keys, NR)
  }

  /** The state once the inverse rounds from the last down to round + 1 are done. */
  function InvRounds(s: Block, keys: Schedule, round: nat): Block
    requires round < NR
    decreases NR - round
  {
    if round == NR - 1 then AddRoundKey(s, keys, NR)
    else InvMixColumns(AddRoundKey(InvSubBytes(InvShiftRows(InvRounds(s, keys, round + 1))), keys, round + 1))
  }

  function InvCipher(s: Block, keys: Schedule): Block {
    AddRoundKey(InvSubBytes(InvShiftRows(InvRounds(s, keys, 0))), keys, 0)
  }

  /** The inverse cipher goes back through the states of the cipher. */
  lemma {:induction false} InvRoundsRetrace(s: Block, keys: Schedule, round: nat)
    requires round < NR
    ensures InvRounds(Cipher(s, keys), keys, round) == ShiftRows(SubBytes(Rounds(s, keys, round)))
    decreases NR - round
  {
    hide AddRoundKey, SubBytes, InvSubBytes, ShiftRows, InvShiftRows, MixColumns, InvMixColumns;
    if round == NR - 1 {
      AddRoundKeyTwice(ShiftRows(SubBytes(Rounds(s, keys, round))), keys, NR);
    } else {
      InvRoundsRetrace(s, keys, round + 1);
      var mixed := MixColumns(ShiftRows(SubBytes(Rounds(s, keys, round))));
      InvShiftRowsUndoes(SubBytes(Rounds(s, keys, round + 1)));
      InvSubBytesUndoes(Rounds(s, keys, round + 1));
      AddRoundKeyTwice(mixed, keys, round + 1);
      InvMixColumnsUndoes(ShiftRows(SubBytes(Rounds(s, keys, round))));
    }
  }

  /** Whatever the round keys are, the inverse cipher undoes the cipher. */
  lemma InvCipherUndoes(s: Block, keys: Schedule)
    ensures InvCipher(Cipher(s, keys), keys) == s
  {
    hide AddRoundKey, SubBytes, InvSubBytes, ShiftRows, InvShiftRows, MixColumns, InvMixColumns, Cipher;
    InvRoundsRetrace(s, keys, 0);
    InvShiftRowsUndoes(SubBytes(Rounds(s, keys, 0)));
    InvSubBytesUndoes(Rounds(s, keys, 0));
    AddRoundKeyTwice(s, keys, 0);
  }

  // ----- The key schedule, section 5.2 of FIPS 197 -----

  function Xor(a: Word, b: Word): Word {
    [Sum(a[0], b[0]), Sum(a[1], b[1]), Sum(a[2], b[2]), Sum(a[3], b[3])]
  }

  function RotWord(w: Word): Word {
    [w[1], w[2], w[3], w[0]]
  }

  function SubWord(w: Word): Word {
    [SBox(w[0]), SBox(w[1]), SBox(w[2]), SBox(w[3])]
  }

  function KeyWord(key: Block, i: nat): Word
    requires i < 4 * (NR + 1)
  {
    if i < NK then key[4 * i..4 * i + 4]
    else if i % NK == 0 then
      Xor(KeyWord(key, i - NK), Xor(SubWord(RotWord(KeyWord(key, i - 1))), [Rcon(i / NK), 0, 0, 0]))
    else
      Xor(KeyWord(key, i - NK), KeyWord(key, i - 1))
  }

  ghost predicate Expanded(key: Block, keys: seq<bv8>, words: nat) {
    && words <= 4 * (NR + 1)
    && 4 * words <= |keys|
    && forall i :: 0 <= i < words ==> keys[4 * i..4 * i + 4] == KeyWord(key, i)
  }

  function Expansion(key: Block): Schedule {
    seq(176, k requires 0 <= k < 176 => KeyWord(key, k / 4)[k % 4])
  }

  lemma ExpandedWhole(key: Block, keys: Schedule)
    requires Expanded(key, keys, 4 * (NR + 1))
    ensures keys == Expansion(key)
  {
    hide KeyWord;
    forall k | 0 <= k < 176
      ensures keys[k] == Expansion(key)[k]
    {
      assert keys[4 * (k / 4)..4 * (k / 4) + 4] == KeyWord(key, k / 4);
    }
  }

  // ----- The methods -----

  method KeyExpansion(key: array<bv8>, roundKey: array<bv8>)
    requires key.Length == 16 && roundKey.Length == 176 && key != roundKey
    modifies roundKey
    ensures roundKey[..] == Expansion(key[..])
  {
    var i := 0;
    while i < NK
      invariant i <= NK
      invariant Expanded(key[..], roundKey[..], i)
    {
      CopyWord(key, roundKey, i);
      i := i + 1;
    }
    while i < 4 * (NR + 1)
      invariant NK <= i <= 4 * (NR + 1)
      invariant Expanded(key[..], roundKey[..], i)
    {
      NextWord(key[..], roundKey, i);
      i := i + 1;
    }
    ExpandedWhole(key[..], roundKey[..]);
  }

  method CopyWord(key: array<bv8>, roundKey: array<bv8>, i: nat)
    requires key.Length == 16 && roundKey.Length == 176 && key != roundKey && i < NK
    requires Expanded(key[..], roundKey[..], i)
    modifies roundKey
    ensures Expanded(key[..], roundKey[..], i + 1)
  {
    roundKey[i * 4 + 0] := key[i * 4 + 0];
    roundKey[i * 4 + 1] := key[i * 4 + 1];
    roundKey[i * 4 + 2] := key[i * 4 + 2];
    roundKey[i * 4 + 3] := key[i * 4 + 3];
    KeepWords(key[..], old(roundKey[..]), roundKey[..], i);
  }

  lemma KeepWords(key: Block, before: Schedule, after: Schedule, i: nat)
    requires i < 4 * (NR + 1) && Expanded(key, before, i)
    requires forall k :: 0 <= k < 4 * i ==> after[k] == before[k]
    requires after[4 * i..4 * i + 4] == KeyWord(key, i)
    ensures Expanded(key, after, i + 1)
  {
    hide KeyWord;
    forall j | 0 <= j < i + 1
      ensures after[4 * j..4 * j + 4] == KeyWord(key, j)
    {
      if j < i {
        assert after[4 * j..4 * j + 4] == before[4 * j..4 * j + 4];
      }
    }
  }

  /** RotWord, SubWord and the round constant, in place. */
  method Mangle(temp: array<bv8>, i: nat)
    requires temp.Length == 4 && NK <= i < 4 * (NR + 1)
    modifies temp
    ensures temp[..] == Xor(SubWord(RotWord(old(temp[..]))), [Rcon(i / NK), 0, 0, 0])
  {
    hide SBox, Rcon, Sum;
    var k := temp[0];
    temp[0] := temp[1];
    temp[1] := temp[2];
    temp[2] := temp[3];
    temp[3] := k;
    temp[0] := SBox(temp[0]);
    temp[1] := SBox(temp[1]);
    temp[2] := SBox(temp[2]);
    temp[3] := SBox(temp[3]);
    temp[0] := Sum(temp[0], Rcon(i / NK));
    SumZero(temp[1]);
    SumZero(temp[2]);
    SumZero(temp[3]);
  }

  method LastWord(roundKey: array<bv8>, i: nat) returns (temp: array<bv8>)
    requires roundKey.Length == 176 && 1 <= i <= 4 * (NR + 1)
    ensures fresh(temp) && temp.Length == 4 && temp[..] == roundKey[4 * (i - 1)..4 * (i - 1) + 4]
  {
    temp := new bv8[4];
    var j := 0;
    while j < 4
      invariant j <= 4
      invariant forall k :: 0 <= k < j ==> temp[k] == roundKey[4 * (i - 1) + k]
    {
      temp[j] := roundKey[(i - 1) * 4 + j];
      j := j + 1;
    }
  }

  method AddWord(roundKey: array<bv8>, temp: array<bv8>, i: nat)
    requires roundKey.Length == 176 && temp.Length == 4 && temp != roundKey && NK <= i < 4 * (NR + 1)
    modifies roundKey
    ensures roundKey[4 * i..4 * i + 4] == Xor(old(roundKey[4 * (i - NK)..4 * (i - NK) + 4]), temp[..])
    ensures forall k :: 0 <= k < 4 * i ==> roundKey[k] == old(roundKey[k])
  {
    hide Sum;
    roundKey[i * 4 + 0] := Sum(roundKey[(i - NK) * 4 + 0], temp[0]);
    roundKey[i * 4 + 1] := Sum(roundKey[(i - NK) * 4 + 1], temp[1]);
    roundKey[i * 4 + 2] := Sum(roundKey[(i - NK) * 4 + 2], temp[2]);
    roundKey[i * 4 + 3] := Sum(roundKey[(i - NK) * 4 + 3], temp[3]);
  }

  /** One turn of the second loop. */
  method NextWord(ghost key: Block, roundKey: array<bv8>, i: nat)
    requires roundKey.Length == 176 && NK <= i < 4 * (NR + 1)
    requires Expanded(key, roundKey[..], i)
    modifies roundKey
    ensures Expanded(key, roundKey[..], i + 1)
  {
    hide Xor, SubWord, Rcon;
    var temp := LastWord(roundKey, i);
    if i % NK == 0 {
      Mangle(temp, i);
    }
    AddWord(roundKey, temp, i);
    assert old(roundKey[4 * (i - 1)..4 * (i - 1) + 4]) == KeyWord(key, i - 1);
    assert old(roundKey[4 * (i - NK)..4 * (i - NK) + 4]) == KeyWord(key, i - NK);
    KeepWords(key, old(roundKey[..]), roundKey[..], i);
  }

  method AddRoundKeyTo(roundKey: array<bv8>, state: array<bv8>, round: nat)
    requires roundKey.Length == 176 && state.Length == 16 && round <= NR && roundKey != state
    modifies state
    ensures state[..] == AddRoundKey(old(state[..]), roundKey[..], round)
  {
    for i := 0 to 4
      invariant forall k :: 0 <= k < 4 * i ==> state[k] == AddRoundKey(old(state[..]), roundKey[..], round)[k]
      invariant forall k :: 4 * i <= k < 16 ==> state[k] == old(state[k])
    {
      for j := 0 to 4
        invariant forall k :: 0 <= k < 4 * i + j ==> state[k] == AddRoundKey(old(state[..]), roundKey[..], round)[k]
        invariant forall k :: 4 * i + j <= k < 16 ==> state[k] == old(state[k])
      {
        state[4 * i + j] := state[4 * i + j] ^ roundKey[round * 4 * 4 + i * 4 + j];
      }
    }
  }

  /** The loops run down each row in turn, so row by row. */
  method SubBytesOf(state: array<bv8>)
    requires state.Length == 16
    modifies state
    ensures state[..] == SubBytes(old(state[..]))
  {
    hide SBox;
    for i := 0 to 4
      invariant forall k :: 0 <= k < 16 ==> state[k] == if k % 4 < i then SBox(old(state[k])) else old(state[k])
    {
      for j := 0 to 4
        invariant forall k :: 0 <= k < 16 ==>
          state[k] == if k % 4 < i || (k % 4 == i && k / 4 < j) then SBox(old(state[k])) else old(state[k])
      {
        state[4 * j + i] := SBox(state[4 * j + i]);
      }
    }
  }

  method InvSubBytesOf(state: array<bv8>)
    requires state.Length == 16
    modifies state
    ensures state[..] == InvSubBytes(old(state[..]))
  {
    hide InvSBox;
    for i := 0 to 4
      invariant forall k :: 0 <= k < 16 ==> state[k] == if k % 4 < i then InvSBox(old(state[k])) else old(state[k])
    {
      for j := 0 to 4
        invariant forall k :: 0 <= k < 16 ==>
          state[k] == if k % 4 < i || (k % 4 == i && k / 4 < j) then InvSBox(old(state[k])) else old(state[k])
      {
        state[4 * j + i] := InvSBox(state[4 * j + i]);
      }
    }
  }

  method FirstRowLeft(state: array<bv8>)
    requires state.Length == 16
    modifies state
    ensures state[1] == old(state[5]) && state[5] == old(state[9])
    ensures state[9] == old(state[13]) && state[13] == old(state[1])
    ensures forall k :: 0 <= k < 16 && k % 4 != 1 ==> state[k] == old(state[k])
  {
    var temp := state[1];
    state[1] := state[5];
    state[5] := state[9];
    state[9] := state[13];
    state[13] := temp;
  }

  method SecondRowAcross(state: array<bv8>)
    requires state.Length == 16
    modifies state
    ensures state[2] == old(state[10]) && state[6] == old(state[14])
    ensures state[10] == old(state[2]) && state[14] == old(state[6])
    ensures forall k :: 0 <= k < 16 && k % 4 != 2 ==> state[k] == old(state[k])
  {
    var temp := state[2];
    state[2] := state[10];
    state[10] := temp;
    temp := state[6];
    state[6] := state[14];
    state[14] := temp;
  }

  method ThirdRowLeft(state: array<bv8>)
    requires state.Length == 16
    modifies state
    ensures state[3] == old(state[15]) && state[7] == old(state[3])
    ensures state[11] == old(state[7]) && state[15] == old(state[11])
    ensures forall k :: 0 <= k < 16 && k % 4 != 3 ==> state[k] == old(state[k])
  {
    var temp := state[3];
    state[3] := state[15];
    state[15] := state[11];
    state[11] := state[7];
    state[7] := temp;
  }

  method FirstRowRight(state: array<bv8>)
    requires state.Length == 16
    modifies state
    ensures state[1] == old(state[13]) && state[5] == old(state[1])
    ensures state[9] == old(state[5]) && state[13] == old(state[9])
    ensures forall k :: 0 <= k < 16 && k % 4 != 1 ==> state[k] == old(state[k])
  {
    var temp := state[13];
    state[13] := state[9];
    state[9] := state[5];
    state[5] := state[1];
    state[1] := temp;
  }

  method ThirdRowRight(state: array<bv8>)
    requires state.Length == 16
    modifies state
    ensures state[3] == old(state[7]) && state[7] == old(state[11])
    ensures state[11] == old(state[15]) && state[15] == old(state[3])
    ensures forall k :: 0 <= k < 16 && k % 4 != 3 ==> state[k] == old(state[k])
  {
    var temp := state[3];
    state[3] := state[7];
    state[7] := state[11];
    state[11] := state[15];
    state[15] := temp;
  }

  method ShiftRowsOf(state: array<bv8>)
    requires state.Length == 16
    modifies state
    ensures state[..] == ShiftRows(old(state[..]))
  {
    FirstRowLeft(state);
    SecondRowAcross(state);
    ThirdRowLeft(state);
  }

  method InvShiftRowsOf(state: array<bv8>)
    requires state.Length == 16
    modifies state
    ensures state[..] == InvShiftRows(old(state[..]))
  {
    FirstRowRight(state);
    SecondRowAcross(state);
    ThirdRowRight(state);
  }

  /** One turn of the loop: the sum of all four bytes is taken once. */
  method MixColumnOf(state: array<bv8>, i: nat)
    requires state.Length == 16 && i < 4
    modifies state
    ensures state[4 * i..4 * i + 4] == MixColumn(old(state[4 * i..4 * i + 4]))
    ensures forall k :: 0 <= k < 16 && k / 4 != i ==> state[k] == old(state[k])
  {
    hide XTime, Sum, SumOfFour;
    var t := state[4 * i];
    var all := SumOfFour(state[4 * i], state[4 * i + 1], state[4 * i + 2], state[4 * i + 3]);
    AllAround(state[4 * i], state[4 * i + 1], state[4 * i + 2], state[4 * i + 3]);
    var pair := XTime(Sum(state[4 * i], state[4 * i + 1]));
    state[4 * i] := Sum(state[4 * i], Sum(pair, all));
    pair := XTime(Sum(state[4 * i + 1], state[4 * i + 2]));
    state[4 * i + 1] := Sum(state[4 * i + 1], Sum(pair, all));
    pair := XTime(Sum(state[4 * i + 2], state[4 * i + 3]));
    state[4 * i + 2] := Sum(state[4 * i + 2], Sum(pair, all));
    pair := XTime(Sum(state[4 * i + 3], t));
    state[4 * i + 3] := Sum(state[4 * i + 3], Sum(pair, all));
  }

  lemma AllAround(a: bv8, b: bv8, c: bv8, d: bv8)
    ensures SumOfFour(a, b, c, d) == SumOfFour(b, c, d, a) == SumOfFour(c, d, a, b) == SumOfFour(d, a, b, c)
  {
    hide SumOfFour;
    SumOfFourAround(a, b, c, d);
    SumOfFourAround(b, c, d, a);
    SumOfFourAround(c, d, a, b);
  }

  /** The first columns are done and the others as they were. */
  ghost predicate ColumnsDone(f: Word -> Word, before: Block, after: Block, columns: nat)
    requires columns <= 4
  {
    forall i :: 0 <= i < 4 ==> Column(after, i) == if i < columns then f(Column(before, i)) else Column(before, i)
  }

  lemma OneMoreColumn(f: Word -> Word, start: Block, before: Block, after: Block, i: nat)
    requires i < 4 && ColumnsDone(f, start, before, i)
    requires Column(after, i) == f(Column(before, i))
    requires forall k :: 0 <= k < 16 && k / 4 != i ==> after[k] == before[k]
    ensures ColumnsDone(f, start, after, i + 1)
  {
    forall j | 0 <= j < 4 && j != i
      ensures Column(after, j) == Column(before, j)
    {
    }
  }

  lemma AllColumns(f: Word -> Word, before: Block, after: Block)
    requires ColumnsDone(f, before, after, 4)
    ensures after == f(Column(before, 0)) + f(Column(before, 1)) + f(Column(before, 2)) + f(Column(before, 3))
  {
    assert after == Column(after, 0) + Column(after, 1) + Column(after, 2) + Column(after, 3);
  }

  method MixColumnsOf(state: array<bv8>)
    requires state.Length == 16
    modifies state
    ensures state[..] == MixColumns(old(state[..]))
  {
    assert ColumnsDone(MixColumn, state[..], state[..], 0);
    hide MixColumn, ColumnsDone;
    for i := 0 to 4
      invariant ColumnsDone(MixColumn, old(state[..]), state[..], i)
    {
      ghost var before: Block := state[..];
      MixColumnOf(state, i);
      OneMoreColumn(MixColumn, old(state[..]), before, state[..], i);
    }
    AllColumns(MixColumn, old(state[..]), state[..]);
  }

  /** One turn of the loop. */
  method UnmixColumnOf(state: array<bv8>, i: nat)
    requires state.Length == 16 && i < 4
    modifies state
    ensures state[4 * i..4 * i + 4] == UnmixColumn(old(state[4 * i..4 * i + 4]))
    ensures forall k :: 0 <= k < 16 && k / 4 != i ==> state[k] == old(state[k])
  {
    hide Multiply, Sum, SumOfFour;
    var a, b, c, d := state[4 * i], state[4 * i + 1], state[4 * i + 2], state[4 * i + 3];
    state[4 * i] := SumOfFour(Multiply(a, 0x0e), Multiply(b, 0x0b), Multiply(c, 0x0d), Multiply(d, 0x09));
    state[4 * i + 1] := SumOfFour(Multiply(a, 0x09), Multiply(b, 0x0e), Multiply(c, 0x0b), Multiply(d, 0x0d));
    state[4 * i + 2] := SumOfFour(Multiply(a, 0x0d), Multiply(b, 0x09), Multiply(c, 0x0e), Multiply(d, 0x0b));
    state[4 * i + 3] := SumOfFour(Multiply(a, 0x0b), Multiply(b, 0x0d), Multiply(c, 0x09), Multiply(d, 0x0e));
    AllAround(Multiply(a, 0x09), Multiply(b, 0x0e), Multiply(c, 0x0b), Multiply(d, 0x0d));
    AllAround(Multiply(a, 0x0d), Multiply(b, 0x09), Multiply(c, 0x0e), Multiply(d, 0x0b));
    AllAround(Multiply(a, 0x0b), Multiply(b, 0x0d), Multiply(c, 0x09), Multiply(d, 0x0e));
  }

  method InvMixColumnsOf(state: array<bv8>)
    requires state.Length == 16
    modifies state
    ensures state[..] == InvMixColumns(old(state[..]))
  {
    assert ColumnsDone(UnmixColumn, state[..], state[..], 0);
    hide UnmixColumn, ColumnsDone;
    for i := 0 to 4
      invariant ColumnsDone(UnmixColumn, old(state[..]), state[..], i)
    {
      ghost var before: Block := state[..];
      UnmixColumnOf(state, i);
      OneMoreColumn(UnmixColumn, old(state[..]), before, state[..], i);
    }
    AllColumns(UnmixColumn, old(state[..]), state[..]);
  }

  method CipherOn(roundKey: array<bv8>, state: array<bv8>)
    requires roundKey.Length == 176 && state.Length == 16 && roundKey != state
    modifies state
    ensures state[..] == Cipher(old(state[..]), roundKey[..])
  {
    hide AddRoundKey, SubBytes, ShiftRows, MixColumns;
    AddRoundKeyTo(roundKey, state, 0);
    for round := 1 to NR
      invariant state[..] == Rounds(old(state[..]), roundKey[..], round - 1)
    {
      SubBytesOf(state);
      ShiftRowsOf(state);
      MixColumnsOf(state);
      AddRoundKeyTo(roundKey, state, round);
    }
    SubBytesOf(state);
    ShiftRowsOf(state);
    AddRoundKeyTo(roundKey, state, NR);
  }

  method InvCipherOn(roundKey: array<bv8>, state: array<bv8>)
    requires roundKey.Length == 176 && state.Length == 16 && roundKey != state
    modifies state
    ensures state[..] == InvCipher(old(state[..]), roundKey[..])
  {
    hide AddRoundKey, InvSubBytes, InvShiftRows, InvMixColumns;
    AddRoundKeyTo(roundKey, state, NR);
    var round := NR - 1;
    while round > 0
      invariant 0 <= round < NR
      invariant state[..] == InvRounds(old(state[..]), roundKey[..], round)
    {
      InvShiftRowsOf(state);
      InvSubBytesOf(state);
      AddRoundKeyTo(roundKey, state, round);
      InvMixColumnsOf(state);
      round := round - 1;
    }
    InvShiftRowsOf(state);
    InvSubBytesOf(state);
    AddRoundKeyTo(roundKey, state, 0);
  }

  method BlockCopy(output: array<bv8>, input: array<bv8>)
    requires output.Length == 16 && input.Length == 16
    modifies output
    ensures output[..] == old(input[..])
  {
    for i := 0 to 16
      invariant forall k :: 0 <= k < i ==> output[k] == old(input[k])
      invariant forall k :: i <= k < 16 ==> input[k] == old(input[k])
    {
      output[i] := input[i];
    }
  }

  /** AES-128 of one block, figures 5 and 11 of FIPS 197. */
  function Encrypted(key: Block, input: Block): Block {
    Cipher(input, Expansion(key))
  }

  function Decrypted(key: Block, input: Block): Block {
    InvCipher(input, Expansion(key))
  }

  /** AES128_ECB_encrypt_reference; the output may be the input. */
  method Encrypt(input: array<bv8>, key: array<bv8>, output: array<bv8>)
    requires input.Length == 16 && key.Length == 16 && output.Length == 16 && key != output
    modifies output
    ensures output[..] == Encrypted(key[..], old(input[..]))
  {
    hide Cipher, Expansion;
    var roundKey := new bv8[176];
    BlockCopy(output, input);
    KeyExpansion(key, roundKey);
    CipherOn(roundKey, output);
  }

  /** AES128_ECB_decrypt_reference. */
  method Decrypt(input: array<bv8>, key: array<bv8>, output: array<bv8>)
    requires input.Length == 16 && key.Length == 16 && output.Length == 16 && key != output
    modifies output
    ensures output[..] == Decrypted(key[..], old(input[..]))
  {
    hide InvCipher, Expansion;
    var roundKey := new bv8[176];
    BlockCopy(output, input);
    KeyExpansion(key, roundKey);
    InvCipherOn(roundKey, output);
  }

  /** Decryption undoes encryption, for every key and block. */
  lemma DecryptUndoesEncrypt(key: Block, input: Block)
    ensures Decrypted(key, Encrypted(key, input)) == input
  {
    hide Expansion, Cipher, InvCipher;
    InvCipherUndoes(input, Expansion(key));
  }
}
