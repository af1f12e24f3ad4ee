/** PBKDF2 (section 5.2 of RFC 8018) over an arbitrary keyed function with 32-byte output. */
module Pbkdf2 {
  import opened Common

  const HASH_LEN: nat := 32

  type Digest = d: Bytes | |d| == HASH_LEN witness seq(HASH_LEN, _ => 0)
  type Prf = (Bytes, Bytes) -> Digest

  // ---- The standard's definition.

  function Xor(a: Byte, b: Byte): Byte {
    ((a as bv8) ^ (b as bv8)) as Byte
  }

  predicate IsBit(mask: bv8) {
    mask == 1 || mask == 2 || mask == 4 || mask == 8 || mask == 16 || mask == 32 || mask == 64 || mask == 128
  }

  lemma BitsOfByte(x: bv8)
    ensures (x as Byte) as bv8 == x
  {
  }

  /** A bit of the result is set exactly when the two bytes differ in it. */
  lemma XorIsBitwise(a: Byte, b: Byte, mask: bv8)
    requires IsBit(mask)
    ensures (Xor(a, b) as bv8) & mask != 0 <==> ((a as bv8) & mask != 0) != ((b as bv8) & mask != 0)
  {
    BitsOfByte((a as bv8) ^ (b as bv8));
  }

  function XorDigests(a: Digest, b: Digest): Digest {
    seq(HASH_LEN, i requires 0 <= i < HASH_LEN => Xor(a[i], b[i]))
  }

  /** INT(i): the four-octet encoding of the block number, most significant octet first. */
  function Int4(i: nat): Bytes {
    var i1 := i / 0x100;
    var i2 := i1 / 0x100;
    var i3 := i2 / 0x100;
    [(i3 % 0x100) as Byte, (i2 % 0x100) as Byte, (i1 % 0x100) as Byte, (i % 0x100) as Byte]
  }

  /** U_1 = PRF(P, S || INT(i)), U_j = PRF(P, U_{j-1}). */
  function U(prf: Prf, password: Bytes, salt: Bytes, block: nat, j: nat): Digest
    requires j >= 1
  {
    if j == 1 then prf(password, salt + Int4(block)) else prf(password, U(prf, password, salt, block, j - 1))
  }

  /** F = U_1 xor U_2 xor .. xor U_c. */
  function F(prf: Prf, password: Bytes, salt: Bytes, c: nat, block: nat): Digest
    requires c >= 1
  {
    if c == 1 then U(prf, password, salt, block, 1)
    else XorDigests(F(prf, password, salt, c - 1, block), U(prf, password, salt, block, c))
  }

  lemma NextRound(prf: Prf, password: Bytes, salt: Bytes, block: nat, j: nat)
    requires j >= 1
    ensures U(prf, password, salt, block, j + 1) == prf(password, U(prf, password, salt, block, j))
    ensures F(prf, password, salt, j + 1, block) ==
            XorDigests(F(prf, password, salt, j, block), U(prf, password, salt, block, j + 1))
  {
  }

  /** T_1 || .. || T_n. */
  function Blocks(prf: Prf, password: Bytes, salt: Bytes, c: nat, n: nat): (t: Bytes)
    requires c >= 1
    ensures |t| == n * HASH_LEN
  {
    if n == 0 then [] else Blocks(prf, password, salt, c, n - 1) + F(prf, password, salt, c, n)
  }

  /** DK = T_1 || .. || T_l<0..r-1> with l = CEIL(dkLen / hLen) and r = dkLen - (l - 1) * hLen. */
  function DerivedKey(prf: Prf, password: Bytes, salt: Bytes, c: nat, keyLen: nat): Bytes
    requires c >= 1 && keyLen >= 1
  {
    var l := (keyLen + HASH_LEN - 1) / HASH_LEN;
    var r := keyLen - (l - 1) * HASH_LEN;
    Blocks(prf, password, salt, c, l - 1) + F(prf, password, salt, c, l)[..r]
  }

  lemma DerivedKeyLength(prf: Prf, password: Bytes, salt: Bytes, c: nat, keyLen: nat)
    requires c >= 1 && keyLen >= 1
    ensures |DerivedKey(prf, password, salt, c, keyLen)| == keyLen
  {
  }

  /** Keys of one block: the first round hashes the salt followed by the number 1, the second hashes the first. */
  lemma FirstRounds(prf: Prf, password: Bytes, salt: Bytes, keyLen: nat)
    requires 1 <= keyLen <= 32
    ensures var first := prf(password, salt + [0, 0, 0, 1]);
            && DerivedKey(prf, password, salt, 1, keyLen) == first[..keyLen]
            && DerivedKey(prf, password, salt, 2, keyLen) == XorDigests(first, prf(password, first))[..keyLen]
  {
    assert Int4(1) == [0, 0, 0, 1];
    assert Blocks(prf, password, salt, 1, 0) == [] && Blocks(prf, password, salt, 2, 0) == [];
  }

  /** The block number is recovered from its encoding, so no two blocks below 2^32 share one. */
  lemma Int4IsBigEndian(i: nat)
    requires i < 0x1_0000_0000
    ensures var b := Int4(i);
            ((b[0] as int * 0x100 + b[1] as int) * 0x100 + b[2] as int) * 0x100 + b[3] as int == i
  {
  }

  // ---- The loops.

  method XorInto(out: array<Byte>, u: Digest)
    requires out.Length == HASH_LEN
    modifies out
    ensures out[..] == XorDigests(old(out[..]), u)
  {
    var j := 0;
    while j < out.Length
      invariant 0 <= j <= out.Length
      invariant forall k :: 0 <= k < j ==> out[k] == Xor(old(out[k]), u[k])
      invariant forall k :: j <= k < out.Length ==> out[k] == old(out[k])
    {
      out[j] := Xor(out[j], u[j]);
      j := j + 1;
    }
  }

  method Copied(u: Digest) returns (out: array<Byte>)
    ensures fresh(out) && out[..] == u
  {
    out := new Byte[HASH_LEN](i requires 0 <= i < HASH_LEN => u[i]);
  }

  /** One block: the buffer `out` is XORed in place with each further U. */
  method Block(prf: Prf, password: Bytes, salt: Bytes, iterations: nat, block: nat) returns (out: array<Byte>)
    requires iterations >= 1
    ensures fresh(out) && out[..] == F(prf, password, salt, iterations, block)
  {
    var u: Digest := prf(password, salt + Int4(block));
    out := Copied(u);
    var i := 1;
    while i < iterations
      invariant 1 <= i <= iterations
      invariant u == U(prf, password, salt, block, i)
      invariant out[..] == F(prf, password, salt, i, block)
    {
      u := prf(password, u);
      NextRound(prf, password, salt, block, i);
      XorInto(out, u);
      i := i + 1;
    }
  }

  method DeriveKey(prf: Prf, password: Bytes, salt: Bytes, iterations: nat, keyLen: nat) returns (key: Bytes)
    requires iterations >= 1 && keyLen >= 1
    ensures key == DerivedKey(prf, password, salt, iterations, keyLen)
    ensures |key| == keyLen
  {
    var numBlocks := (keyLen + HASH_LEN - 1) / HASH_LEN;
    key := [];
    var block := 1;
    while block <= numBlocks
      invariant 1 <= block <= numBlocks + 1
      invariant key == Blocks(prf, password, salt, iterations, block - 1)
    {
      var u := Block(prf, password, salt, iterations, block);
      key := key + u[..];
      block := block + 1;
    }
    SliceIsDerivedKey(prf, password, salt, iterations, keyLen);
    key := key[..keyLen];
  }

  /** Slicing the concatenated blocks is truncating the last one. */
  lemma SliceIsDerivedKey(prf: Prf, password: Bytes, salt: Bytes, c: nat, keyLen: nat)
    requires c >= 1 && keyLen >= 1
    ensures var l := (keyLen + HASH_LEN - 1) / HASH_LEN;
            |DerivedKey(prf, password, salt, c, keyLen)| == keyLen <= l * HASH_LEN
            && Blocks(prf, password, salt, c, l)[..keyLen] == DerivedKey(prf, password, salt, c, keyLen)
  {
    DerivedKeyLength(prf, password, salt, c, keyLen);
  }
}
