/** `see_init_crypto`, `see_wrap_key` and `see_unwrap_key`: the AESE and AESD loops against FIPS 197. */
module KeyWrap {
  import opened Aes
  import opened SeeCrypto

  /** The two lanes of a wrapped key. */
  datatype Wrapped = Wrapped(key1: bv64, key2: bv64)

  /** The second half of the block that holds the plain key. */
  const FILL: bv64 := 0xFAEFA0A0A053FE00

  // ---------------------------------------------------------------- one round of each loop

  /** A pass of the wrapping loop adds the round key late: `data ^ key[i]` is the state after round `i`. */
  lemma WrapRound(s: Block, data: Block, k: Block, next: Block)
    requires AddBlock(data, k) == s
    ensures AddBlock(Aesmc(Aese(data, k)), next) == Round(s, next)
  {
    SubShiftCommute(s);
  }

  /** `data` as the wrapping loop holds it after `i` passes. */
  ghost predicate Wrapping(x: Block, w: seq<Block>, i: nat, data: Block)
    requires |w| == 11 && i <= 9
  {
    AddBlock(data, w[i]) == CipherState(x, w, i)
  }

  lemma WrapStep(x: Block, w: seq<Block>, i: nat, data: Block)
    requires |w| == 11 && i < 9 && Wrapping(x, w, i, data)
    ensures Wrapping(x, w, i + 1, Aesmc(Aese(data, w[i])))
  {
    WrapRound(CipherState(x, w, i), data, w[i], w[i + 1]);
  }

  lemma WrapEnd(x: Block, w: seq<Block>, data: Block)
    requires |w| == 11 && Wrapping(x, w, 9, data)
    ensures AddBlock(Aese(data, w[9]), w[10]) == Cipher(x, w)
  {
    SubShiftCommute(CipherState(x, w, 9));
  }

  /** Section 5.3.5: the round keys of the equivalent inverse cipher, in the order of their use. */
  function InverseKey(w: seq<Block>, i: nat): Block
    requires |w| == 11 && i <= 10
  {
    if i == 0 || i == 10 then w[10 - i] else InvMixColumns(w[10 - i])
  }

  /** A pass of the unwrapping loop, where the next key has been through InvMixColumns. */
  lemma UnwrapRound(s: Block, data: Block, k: Block, next: Block)
    requires AddBlock(data, k) == s
    ensures AddBlock(Aesimc(Aesd(data, k)), InvMixColumns(next)) == InvRound(s, next)
  {
    InvMixColumnsAdds(InvSubBytes(InvShiftRows(s)), next);
  }

  /** `data` as the unwrapping loop holds it after `i` passes. */
  ghost predicate Unwrapping(y: Block, w: seq<Block>, i: nat, data: Block)
    requires |w| == 11 && i <= 9
  {
    AddBlock(data, InverseKey(w, i)) == InvState(y, w, i)
  }

  lemma UnwrapStep(y: Block, w: seq<Block>, i: nat, data: Block)
    requires |w| == 11 && i < 9 && Unwrapping(y, w, i, data)
    ensures Unwrapping(y, w, i + 1, Aesimc(Aesd(data, InverseKey(w, i))))
  {
    UnwrapRound(InvState(y, w, i), data, InverseKey(w, i), w[9 - i]);
  }

  lemma UnwrapEnd(y: Block, w: seq<Block>, data: Block)
    requires |w| == 11 && Unwrapping(y, w, 9, data)
    ensures AddBlock(Aesd(data, InverseKey(w, 9)), InverseKey(w, 10)) == InvCipher(y, w)
  {
    SubShiftCommute(InvState(y, w, 9));
  }

  // ---------------------------------------------------------------- the functions of the secure OS

  /** What a wrapped key is: the cipher of the standard on the key and the fill, under the expanded master key. */
  function Wrap(master: seq<bv8>, k: bv64): Wrapped
    requires |master| == 16
  {
    var c := Cipher(Load(k, FILL), Schedule(master));
    Wrapped(Lane0(c), Lane1(c))
  }

  /** Lane 0 of the straight inverse cipher of section 5.3. */
  function Unwrap(master: seq<bv8>, b: Wrapped): bv64
    requires |master| == 16
  {
    Lane0(InvCipher(Load(b.key1, b.key2), Schedule(master)))
  }

  /** Every 64-bit key survives wrapping and unwrapping, under every master key. */
  lemma UnwrapUndoesWrap(master: seq<bv8>, k: bv64)
    requires |master| == 16
    ensures Unwrap(master, Wrap(master, k)) == k
  {
    var w, x := Schedule(master), Load(k, FILL);
    LoadOfLanes(Cipher(x, w));
    InvCipherInverts(x, w);
    LanesOfLoad(k, FILL);
  }

  /** What a pair of lanes deciphers to. */
  function Deciphered(master: seq<bv8>, b: Wrapped): Block
    requires |master| == 16
  {
    InvCipher(Load(b.key1, b.key2), Schedule(master))
  }

  lemma WrapOfUnwrap(master: seq<bv8>, b: Wrapped)
    requires |master| == 16 && Lane1(Deciphered(master, b)) == FILL
    ensures Wrap(master, Unwrap(master, b)) == b
  {
    LoadOfLanes(Deciphered(master, b));
    CipherInverts(Load(b.key1, b.key2), Schedule(master));
    LanesOfLoad(b.key1, b.key2);
  }

  /**
   * `see_unwrap_key` takes any pair for a wrapped key and never looks at lane 1. A pair is the wrapping of a key,
   * and then of the key it unwraps to, exactly when lane 1 of what it deciphers to is the fill.
   */
  lemma WrappedIff(master: seq<bv8>, b: Wrapped)
    requires |master| == 16
    ensures (exists k :: Wrap(master, k) == b) <==> Lane1(Deciphered(master, b)) == FILL
    ensures Wrap(master, Unwrap(master, b)) == b <==> Lane1(Deciphered(master, b)) == FILL
  {
    if k :| Wrap(master, k) == b {
      FillComesBack(master, k);
    }
    if Lane1(Deciphered(master, b)) == FILL { WrapOfUnwrap(master, b); }
  }

  lemma FillComesBack(master: seq<bv8>, k: bv64)
    requires |master| == 16
    ensures Lane1(Deciphered(master, Wrap(master, k))) == FILL
  {
    var w, x := Schedule(master), Load(k, FILL);
    LoadOfLanes(Cipher(x, w));
    InvCipherInverts(x, w);
    LanesOfLoad(k, FILL);
  }

  lemma LoadedKey(master: seq<bv8>, words: seq<bv32>, i: nat)
    requires |master| == 16 && Expanded(Gf256.Sbox, master, words, 44) && i <= 10
    ensures Block(Bytes(words[4 * i]), Bytes(words[4 * i + 1]), Bytes(words[4 * i + 2]), Bytes(words[4 * i + 3]))
      == RoundKey(master, i)
  {
  }

  // ---------------------------------------------------------------- the command interface

  datatype Reply = WrongArgs | Success(result: seq<bv64>)

  /** `see_cmd_wrap_key` */
  function WrapCommand(master: seq<bv8>, k: bv64): Reply
    requires |master| == 16
  {
    if k == 0 then WrongArgs else Success([Wrap(master, k).key1, Wrap(master, k).key2])
  }

  /** `see_cmd_unwrap_key` */
  function UnwrapCommand(master: seq<bv8>, key1: bv64, key2: bv64): Reply
    requires |master| == 16
  {
    if key1 == 0 || key2 == 0 then WrongArgs else Success([Unwrap(master, Wrapped(key1, key2))])
  }

  /** Through the commands a key comes back exactly when neither it nor a half of its blob is zero. */
  lemma CommandRoundTrip(master: seq<bv8>, k: bv64)
    requires |master| == 16
    ensures var blob := WrapCommand(master, k);
      (blob.Success? && UnwrapCommand(master, blob.result[0], blob.result[1]) == Success([k]))
      <==> (k != 0 && Wrap(master, k).key1 != 0 && Wrap(master, k).key2 != 0)
  {
    UnwrapUndoesWrap(master, k);
    assert Wrapped(Wrap(master, k).key1, Wrap(master, k).key2) == Wrap(master, k);
  }

  class KeyStore {
    const encryptionKeys: array<Block>
    const decryptionKeys: array<Block>
    ghost var master: seq<bv8>

    /** The tables hold the key schedule of `master`, and its transform for the equivalent inverse cipher. */
    ghost predicate Ready()
      reads this, encryptionKeys, decryptionKeys
    {
      && |master| == 16
      && encryptionKeys.Length == decryptionKeys.Length == 11
      && encryptionKeys[..] == Schedule(master)
      && forall i :: 0 <= i < 11 ==> decryptionKeys[i] == InverseKey(Schedule(master), i)
    }

    /** The static tables. */
    constructor ()
      ensures encryptionKeys.Length == decryptionKeys.Length == 11
      ensures fresh(encryptionKeys) && fresh(decryptionKeys) && encryptionKeys != decryptionKeys
    {
      encryptionKeys := new Block[11];
      decryptionKeys := new Block[11];
    }

    /** The first loop of `see_init_crypto`: sixteen bytes of the expanded key per vector. */
    method LoadKeys(rawKeys: array<bv32>, ghost key: seq<bv8>)
      requires |key| == 16 && Expanded(Gf256.Sbox, key, rawKeys[..], 44) && encryptionKeys.Length == 11
      modifies encryptionKeys
      ensures encryptionKeys[..] == Schedule(key)
    {
      for i := 0 to 11
        invariant forall j :: 0 <= j < i ==> encryptionKeys[j] == RoundKey(key, j)
      {
        LoadedKey(key, rawKeys[..], i);
        encryptionKeys[i] := Block(Bytes(rawKeys[4 * i]), Bytes(rawKeys[4 * i + 1]),
                                   Bytes(rawKeys[4 * i + 2]), Bytes(rawKeys[4 * i + 3]));
      }
    }

    /** The rest of `see_init_crypto`: the keys backwards, the inner nine through AESIMC. */
    method InvertKeys()
      requires encryptionKeys.Length == decryptionKeys.Length == 11 && encryptionKeys != decryptionKeys
      modifies decryptionKeys
      ensures forall i :: 0 <= i < 11 ==> decryptionKeys[i] == InverseKey(encryptionKeys[..], i)
    {
      decryptionKeys[0] := encryptionKeys[10];
      for i := 1 to 10
        invariant forall j :: 0 <= j < i ==> decryptionKeys[j] == InverseKey(encryptionKeys[..], j)
      {
        decryptionKeys[i] := Aesimc(encryptionKeys[10 - i]);
      }
      decryptionKeys[10] := encryptionKeys[0];
    }

    /** `see_init_crypto` */
    method InitCrypto(masterKey: array<bv8>)
      requires masterKey.Length == 16
      requires encryptionKeys.Length == decryptionKeys.Length == 11 && encryptionKeys != decryptionKeys
      modifies this, encryptionKeys, decryptionKeys
      ensures Ready() && master == masterKey[..]
      ensures forall r :: 0 <= r < 11 ==>
        encryptionKeys[r] == Block(KeyWord(Gf256.Sbox, masterKey[..], 4 * r),
                                   KeyWord(Gf256.Sbox, masterKey[..], 4 * r + 1),
                                   KeyWord(Gf256.Sbox, masterKey[..], 4 * r + 2),
                                   KeyWord(Gf256.Sbox, masterKey[..], 4 * r + 3))
      ensures decryptionKeys[0] == encryptionKeys[10] && decryptionKeys[10] == encryptionKeys[0]
      ensures forall r :: 1 <= r < 10 ==> decryptionKeys[r] == InvMixColumns(encryptionKeys[10 - r])
    {
      var rawKeys := new bv32[44];
      ExpandKey(Gf256.Sbox, masterKey, rawKeys);
      LoadKeys(rawKeys, masterKey[..]);
      InvertKeys();
      master := masterKey[..];
    }

    /** The loop body of `see_wrap_key`. */
    method WrapPass(data: Block, i: nat, ghost x: Block) returns (next: Block)
      requires Ready() && i < 9 && Wrapping(x, Schedule(master), i, data)
      ensures Wrapping(x, Schedule(master), i + 1, next)
    {
      WrapStep(x, Schedule(master), i, data);
      assert encryptionKeys[i] == encryptionKeys[..][i];
      next := Aese(data, encryptionKeys[i]);
      next := Aesmc(next);
    }

    /** `see_wrap_key` */
    method WrapKey(plainKey: bv64) returns (blob: Wrapped)
      requires Ready()
      ensures blob == Wrap(master, plainKey)
      ensures Load(blob.key1, blob.key2) == Cipher(Load(plainKey, 0xFAEFA0A0A053FE00), Schedule(master))
    {
      ghost var x := Load(plainKey, FILL);
      var data := Load(plainKey, FILL);
      for i := 0 to 9
        invariant Wrapping(x, Schedule(master), i, data)
      {
        data := WrapPass(data, i, x);
      }
      WrapEnd(x, Schedule(master), data);
      data := Aese(data, encryptionKeys[9]);
      data := AddBlock(data, encryptionKeys[10]);
      blob := Wrapped(Lane0(data), Lane1(data));
      LoadOfLanes(data);
    }

    /** The loop body of `see_unwrap_key`. */
    method UnwrapPass(data: Block, i: nat, ghost y: Block) returns (next: Block)
      requires Ready() && i < 9 && Unwrapping(y, Schedule(master), i, data)
      ensures Unwrapping(y, Schedule(master), i + 1, next)
    {
      UnwrapStep(y, Schedule(master), i, data);
      next := Aesd(data, decryptionKeys[i]);
      next := Aesimc(next);
    }

    /** `see_unwrap_key` */
    method UnwrapKey(blob: Wrapped) returns (plainKey: bv64)
      requires Ready()
      ensures plainKey == Unwrap(master, blob)
      ensures var y := InvCipher(Load(blob.key1, blob.key2), Schedule(master)); y == Load(plainKey, Lane1(y))
    {
      ghost var y := Load(blob.key1, blob.key2);
      var data := Load(blob.key1, blob.key2);
      for i := 0 to 9
        invariant Unwrapping(y, Schedule(master), i, data)
      {
        data := UnwrapPass(data, i, y);
      }
      UnwrapEnd(y, Schedule(master), data);
      data := Aesd(data, decryptionKeys[9]);
      data := AddBlock(data, decryptionKeys[10]);
      plainKey := Lane0(data);
      LoadOfLanes(data);
    }
  }
}
