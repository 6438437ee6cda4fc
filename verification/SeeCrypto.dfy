/** The key wrap of the secure OS: key expansion on 32-bit words, and the AESE/AESD round loops. */
module SeeCrypto {
  import opened Gf256
  import opened Aes

  // ---------------------------------------------------------------- little-endian words

  /** The four bytes of a word in memory order. */
  function Bytes(w: bv32): Col {
    Col((w & 0xff) as bv8, ((w >> 8) & 0xff) as bv8, ((w >> 16) & 0xff) as bv8, ((w >> 24) & 0xff) as bv8)
  }

  function Word(c: Col): bv32 {
    (c.b0 as bv32) | ((c.b1 as bv32) << 8) | ((c.b2 as bv32) << 16) | ((c.b3 as bv32) << 24)
  }

  lemma BytesOfWord(c: Col)
    ensures Bytes(Word(c)) == c
  {
  }

  function RotWordLe(w: bv32): bv32 { (w >> 8) | (w << 24) }

  /** The four table entries, put back at the positions of the bytes that selected them. */
  function SubWordLe(sub: bv8 -> bv8, w: bv32): bv32 { Word(SubWordBy(sub, Bytes(w))) }

  const RCON: seq<bv8> := [0x01, 0x02, 0x04, 0x08, 0x10, 0x20, 0x40, 0x80, 0x1b, 0x36]

  /** RotWord of section 5.2, on bytes. */
  function RotWord(c: Col): Col { Col(c.b1, c.b2, c.b3, c.b0) }

  lemma RotWordLeIs(w: bv32)
    ensures Bytes(RotWordLe(w)) == RotWord(Bytes(w))
  {
  }

  // ---------------------------------------------------------------- key expansion

  /** `x^(i-1)`, the first byte of Rcon[i]. */
  function RconByte(i: nat): bv8
    requires i >= 1
  {
    if i == 1 then 1 else Xtime(RconByte(i - 1))
  }

  /** One step of KeyExpansion, section 5.2: word `i` from words `i - 1` and `i - 4`. */
  function ExpandStep(sub: bv8 -> bv8, i: nat, prev: Col, back: Col): Col {
    AddCol(back,
           if i % 4 == 0 && i >= 4 then AddCol(SubWordBy(sub, RotWord(prev)), Col(RconByte(i / 4), 0, 0, 0)) else prev)
  }

  /** Word `i` of the key schedule for Nk = 4. */
  function KeyWord(sub: bv8 -> bv8, key: seq<bv8>, i: nat): Col
    requires |key| == 16
  {
    if i < 4 then Col(key[4 * i], key[4 * i + 1], key[4 * i + 2], key[4 * i + 3])
    else ExpandStep(sub, i, KeyWord(sub, key, i - 1), KeyWord(sub, key, i - 4))
  }

  /** The first four words are the key. */
  predicate KeyBytes(key: seq<bv8>, i: nat, w: Col)
    requires |key| == 16 && i < 4
  {
    w == Col(key[4 * i], key[4 * i + 1], key[4 * i + 2], key[4 * i + 3])
  }

  /** Byte by byte, what word `w` number `i` is of the word `p` before it and the word `b` four before it. */
  predicate StepBytes(sub: bv8 -> bv8, i: nat, w: Col, p: Col, b: Col)
    requires i >= 4
  {
    w == if i % 4 == 0
         then Col(b.b0 ^ sub(p.b1) ^ RconByte(i / 4), b.b1 ^ sub(p.b2), b.b2 ^ sub(p.b3), b.b3 ^ sub(p.b0))
         else Col(b.b0 ^ p.b0, b.b1 ^ p.b1, b.b2 ^ p.b2, b.b3 ^ p.b3)
  }

  lemma AddThree(a: bv8, b: bv8, c: bv8)
    ensures Add(a, Add(b, c)) == a ^ b ^ c && Add(a, Add(b, 0)) == a ^ b
  {
    assert Add(a, b ^ c) == a ^ b ^ c;
    assert Add(a, b ^ 0) == a ^ b;
  }

  lemma FourthStep(sub: bv8 -> bv8, i: nat, p: Col, b: Col)
    requires i >= 4 && i % 4 == 0
    ensures ExpandStep(sub, i, p, b)
      == Col(b.b0 ^ sub(p.b1) ^ RconByte(i / 4), b.b1 ^ sub(p.b2), b.b2 ^ sub(p.b3), b.b3 ^ sub(p.b0))
  {
    AddThree(b.b0, sub(p.b1), RconByte(i / 4));
    AddThree(b.b1, sub(p.b2), 0);
    AddThree(b.b2, sub(p.b3), 0);
    AddThree(b.b3, sub(p.b0), 0);
  }

  lemma OtherStep(sub: bv8 -> bv8, i: nat, p: Col, b: Col)
    requires i % 4 != 0
    ensures ExpandStep(sub, i, p, b) == Col(b.b0 ^ p.b0, b.b1 ^ p.b1, b.b2 ^ p.b2, b.b3 ^ p.b3)
  {
  }

  lemma StepIs(sub: bv8 -> bv8, i: nat, w: Col, p: Col, b: Col)
    requires i >= 4 && w == ExpandStep(sub, i, p, b)
    ensures StepBytes(sub, i, w, p, b)
  {
    if i % 4 == 0 { FourthStep(sub, i, p, b); } else { OtherStep(sub, i, p, b); }
  }

  lemma FirstWord(sub: bv8 -> bv8, key: seq<bv8>, i: nat)
    requires |key| == 16 && i < 4
    ensures KeyBytes(key, i, KeyWord(sub, key, i))
  {
  }

  /** The schedule of every key, through every table. */
  lemma LaterWord(sub: bv8 -> bv8, key: seq<bv8>, i: nat)
    requires |key| == 16 && i >= 4
    ensures StepBytes(sub, i, KeyWord(sub, key, i), KeyWord(sub, key, i - 1), KeyWord(sub, key, i - 4))
  {
    StepIs(sub, i, KeyWord(sub, key, i), KeyWord(sub, key, i - 1), KeyWord(sub, key, i - 4));
  }

  /** Word 4 of the example in appendix A.1 of FIPS 197, from words 0 and 3 of its key. */
  lemma WordKnown(key: seq<bv8>)
    requires |key| == 16 && KeyBytes(key, 0, Col(0x2b, 0x7e, 0x15, 0x16))
    requires KeyBytes(key, 3, Col(0x09, 0xcf, 0x4f, 0x3c))
    ensures KeyWord(Sbox, key, 4) == Col(0xa0, 0xfa, 0xfe, 0x17)
  {
    LaterWord(Sbox, key, 4);
  }

  /** The key schedule as round keys. */
  function RoundKey(key: seq<bv8>, r: nat): Block
    requires |key| == 16
  {
    Block(KeyWord(Sbox, key, 4 * r), KeyWord(Sbox, key, 4 * r + 1),
          KeyWord(Sbox, key, 4 * r + 2), KeyWord(Sbox, key, 4 * r + 3))
  }

  function Schedule(key: seq<bv8>): (w: seq<Block>)
    requires |key| == 16
    ensures |w| == 11
  {
    seq(11, r requires 0 <= r < 11 => RoundKey(key, r))
  }

  lemma RconIs(i: nat)
    requires 1 <= i <= 10
    ensures RCON[i - 1] == RconByte(i)
  {
  }

  /** Exclusive or of words, byte by byte. */
  lemma XorBytes(v: bv32, w: bv32, a: Col, b: Col)
    requires Bytes(v) == a && Bytes(w) == b
    ensures Bytes(v ^ w) == AddCol(a, b)
  {
  }

  lemma SubWordLeIs(sub: bv8 -> bv8, w: bv32)
    ensures Bytes(SubWordLe(sub, w)) == SubWordBy(sub, Bytes(w))
  {
  }

  /** `g` of the key schedule: rotate, substitute, add the round constant. */
  function Scramble(sub: bv8 -> bv8, w: bv32, rc: bv8): bv32 { SubWordLe(sub, RotWordLe(w)) ^ (rc as bv32) }

  lemma ScrambleIs(sub: bv8 -> bv8, w: bv32, rc: bv8)
    ensures Bytes(Scramble(sub, w, rc)) == AddCol(SubWordBy(sub, RotWord(Bytes(w))), Col(rc, 0, 0, 0))
  {
    RotWordLeIs(w);
    SubWordLeIs(sub, RotWordLe(w));
    XorBytes(SubWordLe(sub, RotWordLe(w)), rc as bv32, SubWordBy(sub, RotWord(Bytes(w))), Col(rc, 0, 0, 0));
  }

  /** The first `n` words hold the key schedule. */
  ghost predicate Expanded(sub: bv8 -> bv8, key: seq<bv8>, words: seq<bv32>, n: nat)
    requires |key| == 16
  {
    n <= |words| && forall i :: 0 <= i < n ==> Bytes(words[i]) == KeyWord(sub, key, i)
  }

  /** `mem_copy` of the key over the first words of a little-endian array. */
  method CopyKey(ghost sub: bv8 -> bv8, key: array<bv8>, roundKeys: array<bv32>)
    requires key.Length == 16 && roundKeys.Length == 44
    modifies roundKeys
    ensures Expanded(sub, key[..], roundKeys[..], 4)
  {
    for i := 0 to 4
      invariant Expanded(sub, key[..], roundKeys[..], i)
    {
      var c := Col(key[4 * i], key[4 * i + 1], key[4 * i + 2], key[4 * i + 3]);
      BytesOfWord(c);
      roundKeys[i] := Word(c);
    }
  }

  /** One pass of the expansion loop. */
  method NextRoundKey(sub: bv8 -> bv8, i: nat, prev: bv32, back: bv32) returns (next: bv32)
    requires 4 <= i < 44
    ensures Bytes(next) == ExpandStep(sub, i, Bytes(prev), Bytes(back))
  {
    var temp := prev;
    if i % 4 == 0 {
      ScrambleIs(sub, temp, RCON[i / 4 - 1]);
      RconIs(i / 4);
      temp := Scramble(sub, temp, RCON[i / 4 - 1]);
    }
    XorBytes(back, temp, Bytes(back), Bytes(temp));
    next := back ^ temp;
  }

  /** `aes128_expand_key`: byte `j` of word `i` is byte `j` of w[i] in the standard. */
  method ExpandKey(sub: bv8 -> bv8, key: array<bv8>, roundKeys: array<bv32>)
    requires key.Length == 16 && roundKeys.Length == 44
    modifies roundKeys
    ensures Expanded(sub, key[..], roundKeys[..], 44)
    ensures forall i: nat :: i < 4 ==> KeyBytes(key[..], i, Bytes(roundKeys[i]))
    ensures forall i: nat :: 4 <= i < 44 ==>
      StepBytes(sub, i, Bytes(roundKeys[i]), Bytes(roundKeys[i - 1]), Bytes(roundKeys[i - 4]))
  {
    CopyKey(sub, key, roundKeys);
    for i := 4 to 44
      invariant Expanded(sub, key[..], roundKeys[..], i)
    {
      roundKeys[i] := NextRoundKey(sub, i, roundKeys[i - 1], roundKeys[i - 4]);
    }
    forall i: nat | i < 4
      ensures KeyBytes(key[..], i, Bytes(roundKeys[i]))
    {
      FirstWord(sub, key[..], i);
    }
    forall i: nat | 4 <= i < 44
      ensures StepBytes(sub, i, Bytes(roundKeys[i]), Bytes(roundKeys[i - 1]), Bytes(roundKeys[i - 4]))
    {
      LaterWord(sub, key[..], i);
    }
  }

  // ---------------------------------------------------------------- the AES instructions

  /** AESE, AESD, AESMC and AESIMC of the Arm architecture. */
  function Aese(data: Block, key: Block): Block { SubBytes(ShiftRows(AddBlock(data, key))) }

  function Aesd(data: Block, key: Block): Block { InvSubBytes(InvShiftRows(AddBlock(data, key))) }

  function Aesmc(data: Block): Block { MixColumns(data) }

  function Aesimc(data: Block): Block { InvMixColumns(data) }

  /** The key halves in and out of a vector register. */
  function Load(lo: bv64, hi: bv64): Block {
    Block(Bytes((lo & 0xffff_ffff) as bv32), Bytes(((lo >> 32) & 0xffff_ffff) as bv32),
          Bytes((hi & 0xffff_ffff) as bv32), Bytes(((hi >> 32) & 0xffff_ffff) as bv32))
  }

  function Lane0(b: Block): bv64 { (Word(b.c0) as bv64) | ((Word(b.c1) as bv64) << 32) }

  function Lane1(b: Block): bv64 { (Word(b.c2) as bv64) | ((Word(b.c3) as bv64) << 32) }

  /** Byte `k` of a vector is byte `k` of the two halves in memory order. */
  lemma LowBytes(lo: bv64, hi: bv64)
    ensures var x := Load(lo, hi);
      && x.c0.b0 == (lo & 0xff) as bv8 && x.c0.b1 == ((lo >> 8) & 0xff) as bv8
      && x.c0.b2 == ((lo >> 16) & 0xff) as bv8 && x.c0.b3 == ((lo >> 24) & 0xff) as bv8
      && x.c1.b0 == ((lo >> 32) & 0xff) as bv8 && x.c1.b1 == ((lo >> 40) & 0xff) as bv8
      && x.c1.b2 == ((lo >> 48) & 0xff) as bv8 && x.c1.b3 == ((lo >> 56) & 0xff) as bv8
  {
  }

  lemma HighBytes(lo: bv64, hi: bv64)
    ensures var x := Load(lo, hi);
      && x.c2.b0 == (hi & 0xff) as bv8 && x.c2.b1 == ((hi >> 8) & 0xff) as bv8
      && x.c2.b2 == ((hi >> 16) & 0xff) as bv8 && x.c2.b3 == ((hi >> 24) & 0xff) as bv8
      && x.c3.b0 == ((hi >> 32) & 0xff) as bv8 && x.c3.b1 == ((hi >> 40) & 0xff) as bv8
      && x.c3.b2 == ((hi >> 48) & 0xff) as bv8 && x.c3.b3 == ((hi >> 56) & 0xff) as bv8
  {
  }

  lemma LanesOfLoad(lo: bv64, hi: bv64)
    ensures Lane0(Load(lo, hi)) == lo && Lane1(Load(lo, hi)) == hi
  {
  }

  lemma LoadOfLanes(b: Block)
    ensures Load(Lane0(b), Lane1(b)) == b
  {
  }

}
