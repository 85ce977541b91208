/** Vocabulary masks: 32 tokens to a word, the first one lowest. The walk of a draft
    tree tests a token by the bit of its place in its word. */
module TokenMasks {
  type Word = bv32

  // Which tokens a grammar allows after which tokens.
  type Allows = (seq<nat>, nat) -> bool

  function Low(flag: bool): Word {
    if flag then 1 else 0
  }

  // A flag below all those of a word.
  function Push(flag: bool, rest: Word): Word {
    (rest << 1) | Low(flag)
  }

  function Packed(flags: seq<bool>): Word {
    if flags == [] then 0 else Push(flags[0], Packed(flags[1..]))
  }

  // The row of a mask after some tokens.
  function MaskRow(allows: Allows, history: seq<nat>, words: nat): (row: seq<Word>)
    ensures |row| == words
  {
    seq(words, w requires 0 <= w => Packed(seq(32, b requires 0 <= b => allows(history, 32 * w + b))))
  }

  // The walk's test.
  predicate BitSet(word: Word, place: nat)
    requires place < 32
  {
    word & (1 << place) != 0
  }

  predicate Bit(row: seq<Word>, token: nat)
    requires token / 32 < |row|
  {
    BitSet(row[token / 32], token % 32)
  }

  // --- Shifting a word past its lowest flag -----------------------------------------

  lemma Distribute(x: Word, y: Word, z: Word)
    ensures (x | y) & z == (x & z) | (y & z)
  {
  }

  lemma BothShift(x: Word, y: Word)
    ensures (x << 1) & (y << 1) == (x & y) << 1
  {
  }

  lemma LowMisses(flag: bool, weight: Word)
    ensures Low(flag) & (weight << 1) == 0
  {
  }

  lemma ShiftedZero(x: Word, weight: Word)
    requires weight < 0x8000_0000
    ensures (x & weight) << 1 == 0 <==> x & weight == 0
  {
  }

  lemma OrZero(x: Word)
    ensures x | 0 == x
  {
  }

  lemma PushShifts(flag: bool, rest: Word, weight: Word)
    requires weight < 0x8000_0000
    ensures Push(flag, rest) & (weight << 1) != 0 <==> rest & weight != 0
  {
    Distribute(rest << 1, Low(flag), weight << 1);
    BothShift(rest, weight);
    LowMisses(flag, weight);
    ShiftedZero(rest, weight);
    OrZero((rest & weight) << 1);
  }

  lemma NextWeight(k: nat)
    requires k < 31
    ensures (1 as Word) << (k + 1) == (1 << k) << 1
  {
    assert k in {0, 1, 2, 3, 4, 5, 6, 7, 8, 9, 10, 11, 12, 13, 14, 15,
                 16, 17, 18, 19, 20, 21, 22, 23, 24, 25, 26, 27, 28, 29, 30};
  }

  lemma SmallWeight(k: nat)
    requires k < 31
    ensures (1 as Word) << k < 0x8000_0000
  {
  }

  lemma LowestBit(flag: bool, rest: Word)
    ensures BitSet(Push(flag, rest), 0) <==> flag
  {
  }

  lemma NextBit(flag: bool, rest: Word, k: nat)
    requires k < 31
    ensures BitSet(Push(flag, rest), k + 1) <==> BitSet(rest, k)
  {
    NextWeight(k);
    SmallWeight(k);
    PushShifts(flag, rest, 1 << k);
  }

  lemma {:induction false} BitOfPacked(flags: seq<bool>, k: nat)
    requires k < |flags| <= 32
    ensures BitSet(Packed(flags), k) <==> flags[k]
  {
    if k == 0 {
      LowestBit(flags[0], Packed(flags[1..]));
    } else {
      BitOfPacked(flags[1..], k - 1);
      NextBit(flags[0], Packed(flags[1..]), k - 1);
    }
  }

  // The bit of a token in a mask says whether the grammar allows it.
  lemma BitSaysAllowed(allows: Allows, history: seq<nat>, words: nat, token: nat)
    requires token / 32 < words
    ensures Bit(MaskRow(allows, history, words), token) <==> allows(history, token)
  {
    var flags := seq(32, b requires 0 <= b => allows(history, 32 * (token / 32) + b));
    assert MaskRow(allows, history, words)[token / 32] == Packed(flags);
    BitOfPacked(flags, token % 32);
  }
}
