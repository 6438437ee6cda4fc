/** AES-128 as FIPS 197 states it: the state transformations, the cipher, its inverse, and the key schedule. */
module Aes {
  import opened Gf256

  /** A column of four bytes, which is also a word of the key schedule, and a state of four columns. */
  datatype Col = Col(b0: bv8, b1: bv8, b2: bv8, b3: bv8)

  datatype Block = Block(c0: Col, c1: Col, c2: Col, c3: Col)

  function AddCol(x: Col, y: Col): Col {
    Col(Add(x.b0, y.b0), Add(x.b1, y.b1), Add(x.b2, y.b2), Add(x.b3, y.b3))
  }

  /** AddRoundKey, section 5.1.4. */
  function AddBlock(x: Block, y: Block): Block {
    Block(AddCol(x.c0, y.c0), AddCol(x.c1, y.c1), AddCol(x.c2, y.c2), AddCol(x.c3, y.c3))
  }

  /** SubWord of section 5.2 through table `sub`; the key schedule holds for any table. */
  function SubWordBy(sub: bv8 -> bv8, x: Col): Col { Col(sub(x.b0), sub(x.b1), sub(x.b2), sub(x.b3)) }

  function SubWord(x: Col): Col { Col(Sbox(x.b0), Sbox(x.b1), Sbox(x.b2), Sbox(x.b3)) }

  function SubBytes(x: Block): Block { Block(SubWord(x.c0), SubWord(x.c1), SubWord(x.c2), SubWord(x.c3)) }

  function InvSubWord(x: Col): Col { Col(InvSbox(x.b0), InvSbox(x.b1), InvSbox(x.b2), InvSbox(x.b3)) }

  function InvSubBytes(x: Block): Block {
    Block(InvSubWord(x.c0), InvSubWord(x.c1), InvSubWord(x.c2), InvSubWord(x.c3))
  }

  /** Row `r` moves `r` columns to the left, section 5.1.2; to the right, section 5.3.1. */
  function ShiftRows(x: Block): Block {
    Block(Col(x.c0.b0, x.c1.b1, x.c2.b2, x.c3.b3), Col(x.c1.b0, x.c2.b1, x.c3.b2, x.c0.b3),
          Col(x.c2.b0, x.c3.b1, x.c0.b2, x.c1.b3), Col(x.c3.b0, x.c0.b1, x.c1.b2, x.c2.b3))
  }

  function InvShiftRows(x: Block): Block {
    Block(Col(x.c0.b0, x.c3.b1, x.c2.b2, x.c1.b3), Col(x.c1.b0, x.c0.b1, x.c3.b2, x.c2.b3),
          Col(x.c2.b0, x.c1.b1, x.c0.b2, x.c3.b3), Col(x.c3.b0, x.c2.b1, x.c1.b2, x.c0.b3))
  }

  function MixCol(x: Col): Col {
    Col(MixRow(x.b0, x.b1, x.b2, x.b3), MixRow(x.b1, x.b2, x.b3, x.b0),
        MixRow(x.b2, x.b3, x.b0, x.b1), MixRow(x.b3, x.b0, x.b1, x.b2))
  }

  function MixColumns(x: Block): Block { Block(MixCol(x.c0), MixCol(x.c1), MixCol(x.c2), MixCol(x.c3)) }

  function InvMixCol(x: Col): Col {
    Col(InvMixRow(x.b0, x.b1, x.b2, x.b3), InvMixRow(x.b1, x.b2, x.b3, x.b0),
        InvMixRow(x.b2, x.b3, x.b0, x.b1), InvMixRow(x.b3, x.b0, x.b1, x.b2))
  }

  function InvMixColumns(x: Block): Block {
    Block(InvMixCol(x.c0), InvMixCol(x.c1), InvMixCol(x.c2), InvMixCol(x.c3))
  }

  // ---------------------------------------------------------------- the transformations, byte by byte

  function Column(x: Block, c: nat): Col
    requires c < 4
  {
    if c == 0 then x.c0 else if c == 1 then x.c1 else if c == 2 then x.c2 else x.c3
  }

  /** The byte in row `r` and column `c` of a state. */
  function At(x: Block, r: nat, c: nat): bv8
    requires r < 4 && c < 4
  {
    var k := Column(x, c);
    if r == 0 then k.b0 else if r == 1 then k.b1 else if r == 2 then k.b2 else k.b3
  }

  /** Row `r` moves `r` columns to the left, equation 5.4 of FIPS 197. */
  lemma RowsShifted(x: Block, r: nat, c: nat)
    requires r < 4 && c < 4
    ensures At(ShiftRows(x), r, c) == At(x, r, (c + r) % 4)
  {
  }

  /** And back. */
  lemma RowsShiftedBack(x: Block, r: nat, c: nat)
    requires r < 4 && c < 4
    ensures At(InvShiftRows(x), r, (c + r) % 4) == At(x, r, c)
  {
  }

  /** One full round of the cipher, and of its inverse. */
  function Round(s: Block, k: Block): Block { AddBlock(MixColumns(ShiftRows(SubBytes(s))), k) }

  function InvRound(y: Block, k: Block): Block { InvMixColumns(AddBlock(InvSubBytes(InvShiftRows(y)), k)) }

  /** The state after `r` full rounds of the cipher, section 5.1. */
  function CipherState(x: Block, w: seq<Block>, r: nat): Block
    requires |w| == 11 && r <= 9
  {
    if r == 0 then AddBlock(x, w[0])
    else Round(CipherState(x, w, r - 1), w[r])
  }

  function Cipher(x: Block, w: seq<Block>): Block
    requires |w| == 11
  {
    AddBlock(ShiftRows(SubBytes(CipherState(x, w, 9))), w[10])
  }

  /** The state after `r` full rounds of the inverse cipher, section 5.3. */
  function InvState(y: Block, w: seq<Block>, r: nat): Block
    requires |w| == 11 && r <= 9
  {
    if r == 0 then AddBlock(y, w[10])
    else InvRound(InvState(y, w, r - 1), w[10 - r])
  }

  function InvCipher(y: Block, w: seq<Block>): Block
    requires |w| == 11
  {
    AddBlock(InvSubBytes(InvShiftRows(InvState(y, w, 9))), w[0])
  }

  // The first round of the example in appendix B of FIPS 197.

  lemma SubKnown()
    ensures SubBytes(Block(Col(0x19, 0x3d, 0xe3, 0xbe), Col(0xa0, 0xf4, 0xe2, 0x2b),
                           Col(0x9a, 0xc6, 0x8d, 0x2a), Col(0xe9, 0xf8, 0x48, 0x08)))
      == Block(Col(0xd4, 0x27, 0x11, 0xae), Col(0xe0, 0xbf, 0x98, 0xf1),
               Col(0xb8, 0xb4, 0x5d, 0xe5), Col(0x1e, 0x41, 0x52, 0x30))
  {
  }

  lemma MixKnown()
    ensures MixColumns(Block(Col(0xd4, 0xbf, 0x5d, 0x30), Col(0xe0, 0xb4, 0x52, 0xae),
                             Col(0xb8, 0x41, 0x11, 0xf1), Col(0x1e, 0x27, 0x98, 0xe5)))
      == Block(Col(0x04, 0x66, 0x81, 0xe5), Col(0xe0, 0xcb, 0x19, 0x9a),
               Col(0x48, 0xf8, 0xd3, 0x7a), Col(0x28, 0x06, 0x26, 0x4c))
  {
  }

  lemma RoundKnown()
    ensures Round(Block(Col(0x19, 0x3d, 0xe3, 0xbe), Col(0xa0, 0xf4, 0xe2, 0x2b),
                        Col(0x9a, 0xc6, 0x8d, 0x2a), Col(0xe9, 0xf8, 0x48, 0x08)),
                  Block(Col(0xa0, 0xfa, 0xfe, 0x17), Col(0x88, 0x54, 0x2c, 0xb1),
                        Col(0x23, 0xa3, 0x39, 0x39), Col(0x2a, 0x6c, 0x76, 0x05)))
      == Block(Col(0xa4, 0x9c, 0x7f, 0xf2), Col(0x68, 0x9f, 0x35, 0x2b),
               Col(0x6b, 0x5b, 0xea, 0x43), Col(0x02, 0x6a, 0x50, 0x49))
  {
    SubKnown();
    MixKnown();
  }

  lemma ColInverses(x: Col, k: Col)
    ensures AddCol(AddCol(x, k), k) == x
    ensures InvSubWord(SubWord(x)) == x && SubWord(InvSubWord(x)) == x
  {
    AddCancels(x.b0, k.b0);
    AddCancels(x.b1, k.b1);
    AddCancels(x.b2, k.b2);
    AddCancels(x.b3, k.b3);
    InvSboxInverts(x.b0);
    InvSboxInverts(x.b1);
    InvSboxInverts(x.b2);
    InvSboxInverts(x.b3);
    SboxInverts(x.b0);
    SboxInverts(x.b1);
    SboxInverts(x.b2);
    SboxInverts(x.b3);
  }

  lemma BlockInverses(x: Block, k: Block)
    ensures AddBlock(AddBlock(x, k), k) == x
    ensures InvSubBytes(SubBytes(x)) == x && SubBytes(InvSubBytes(x)) == x
  {
    ColInverses(x.c0, k.c0);
    ColInverses(x.c1, k.c1);
    ColInverses(x.c2, k.c2);
    ColInverses(x.c3, k.c3);
  }

  lemma InvMixColInverts(x: Col)
    ensures InvMixCol(MixCol(x)) == x
  {
    InvMixRowInverts(x.b0, x.b1, x.b2, x.b3);
    InvMixRowInverts(x.b1, x.b2, x.b3, x.b0);
    InvMixRowInverts(x.b2, x.b3, x.b0, x.b1);
    InvMixRowInverts(x.b3, x.b0, x.b1, x.b2);
  }

  lemma InvMixColumnsInverts(x: Block)
    ensures InvMixColumns(MixColumns(x)) == x
  {
    InvMixColInverts(x.c0);
    InvMixColInverts(x.c1);
    InvMixColInverts(x.c2);
    InvMixColInverts(x.c3);
  }

  lemma MixColInverts(x: Col)
    ensures MixCol(InvMixCol(x)) == x
  {
    MixRowInverts(x.b0, x.b1, x.b2, x.b3);
    MixRowInverts(x.b1, x.b2, x.b3, x.b0);
    MixRowInverts(x.b2, x.b3, x.b0, x.b1);
    MixRowInverts(x.b3, x.b0, x.b1, x.b2);
  }

  lemma MixColumnsInverts(x: Block)
    ensures MixColumns(InvMixColumns(x)) == x
  {
    MixColInverts(x.c0);
    MixColInverts(x.c1);
    MixColInverts(x.c2);
    MixColInverts(x.c3);
  }

  lemma InvMixColAdds(x: Col, y: Col)
    ensures InvMixCol(AddCol(x, y)) == AddCol(InvMixCol(x), InvMixCol(y))
  {
    InvMixRowAdds(x.b0, x.b1, x.b2, x.b3, y.b0, y.b1, y.b2, y.b3);
    InvMixRowAdds(x.b1, x.b2, x.b3, x.b0, y.b1, y.b2, y.b3, y.b0);
    InvMixRowAdds(x.b2, x.b3, x.b0, x.b1, y.b2, y.b3, y.b0, y.b1);
    InvMixRowAdds(x.b3, x.b0, x.b1, x.b2, y.b3, y.b0, y.b1, y.b2);
  }

  /** Section 5.3.5: InvMixColumns distributes over AddRoundKey, so the key can be transformed beforehand. */
  lemma InvMixColumnsAdds(x: Block, y: Block)
    ensures InvMixColumns(AddBlock(x, y)) == AddBlock(InvMixColumns(x), InvMixColumns(y))
  {
    InvMixColAdds(x.c0, y.c0);
    InvMixColAdds(x.c1, y.c1);
    InvMixColAdds(x.c2, y.c2);
    InvMixColAdds(x.c3, y.c3);
  }

  /** Section 5.3.5: substituting bytes and shifting rows commute, here for the pair that AESE applies. */
  lemma SubShiftCommute(x: Block)
    ensures SubBytes(ShiftRows(x)) == ShiftRows(SubBytes(x))
    ensures InvSubBytes(InvShiftRows(x)) == InvShiftRows(InvSubBytes(x))
  {
  }

  // ---------------------------------------------------------------- cipher and inverse cipher meet in every round

  /** Round `r` of the cipher from `x`, and the round of the inverse cipher from `y` that faces it. */
  ghost predicate Meet(x: Block, y: Block, w: seq<Block>, r: nat)
    requires |w| == 11 && r <= 9
  {
    ShiftRows(SubBytes(CipherState(x, w, r))) == InvState(y, w, 9 - r)
  }

  lemma InvRoundUndoes(s: Block, k: Block)
    ensures InvRound(ShiftRows(SubBytes(Round(s, k))), k) == ShiftRows(SubBytes(s))
  {
    var t, mixed := Round(s, k), MixColumns(ShiftRows(SubBytes(s)));
    assert InvShiftRows(ShiftRows(SubBytes(t))) == SubBytes(t);
    BlockInverses(t, k);
    BlockInverses(mixed, k);
    InvMixColumnsInverts(ShiftRows(SubBytes(s)));
  }

  lemma RoundUndoes(y: Block, k: Block)
    ensures ShiftRows(SubBytes(AddBlock(MixColumns(InvRound(y, k)), k))) == y
  {
    var s := InvSubBytes(InvShiftRows(y));
    MixColumnsInverts(AddBlock(s, k));
    BlockInverses(s, k);
    BlockInverses(InvShiftRows(y), k);
  }

  /** One more round of the inverse cipher takes back one round of the cipher. */
  lemma MeetBefore(x: Block, y: Block, w: seq<Block>, r: nat)
    requires |w| == 11 && 1 <= r <= 9 && Meet(x, y, w, r)
    ensures Meet(x, y, w, r - 1)
  {
    InvRoundUndoes(CipherState(x, w, r - 1), w[r]);
  }

  /** One more round of the cipher takes back one round of the inverse cipher. */
  lemma MeetAfter(x: Block, y: Block, w: seq<Block>, r: nat)
    requires |w| == 11 && 1 <= r <= 9 && Meet(x, y, w, r - 1)
    ensures Meet(x, y, w, r)
  {
    RoundUndoes(InvState(y, w, 9 - r), w[r]);
  }

  lemma MeetLast(x: Block, w: seq<Block>)
    requires |w| == 11
    ensures Meet(x, Cipher(x, w), w, 9)
  {
    BlockInverses(ShiftRows(SubBytes(CipherState(x, w, 9))), w[10]);
  }

  lemma MeetFirst(y: Block, w: seq<Block>)
    requires |w| == 11
    ensures Meet(InvCipher(y, w), y, w, 0)
  {
    var s := InvState(y, w, 9);
    BlockInverses(InvSubBytes(InvShiftRows(s)), w[0]);
    BlockInverses(InvShiftRows(s), w[0]);
  }

  /** The inverse cipher runs the cipher's states backwards. */
  lemma {:induction false} InvStateIs(x: Block, w: seq<Block>, r: nat)
    requires |w| == 11 && r <= 9
    ensures Meet(x, Cipher(x, w), w, r)
    decreases 9 - r
  {
    if r == 9 {
      MeetLast(x, w);
    } else {
      InvStateIs(x, w, r + 1);
      MeetBefore(x, Cipher(x, w), w, r + 1);
    }
  }

  /** The cipher runs the inverse cipher's states backwards. */
  lemma {:induction false} CipherStateIs(y: Block, w: seq<Block>, r: nat)
    requires |w| == 11 && r <= 9
    ensures Meet(InvCipher(y, w), y, w, r)
  {
    if r == 0 {
      MeetFirst(y, w);
    } else {
      CipherStateIs(y, w, r - 1);
      MeetAfter(InvCipher(y, w), y, w, r);
    }
  }

  /** Deciphering undoes enciphering, for every key schedule and every block. */
  lemma InvCipherInverts(x: Block, w: seq<Block>)
    requires |w| == 11
    ensures InvCipher(Cipher(x, w), w) == x
  {
    InvStateIs(x, w, 0);
    var s := CipherState(x, w, 0);
    assert InvShiftRows(ShiftRows(SubBytes(s))) == SubBytes(s);
    BlockInverses(s, w[0]);
    BlockInverses(x, w[0]);
  }

  /** Enciphering undoes deciphering: under every key schedule the cipher is a bijection. */
  lemma CipherInverts(y: Block, w: seq<Block>)
    requires |w| == 11
    ensures Cipher(InvCipher(y, w), w) == y
  {
    CipherStateIs(y, w, 9);
    BlockInverses(y, w[10]);
  }
}
