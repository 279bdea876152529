/**
 * Key derivation of the account service. The reference functions follow section
 * 5.2 of RFC 8018; the method is the buffer-reusing loop. HMAC-SHA-256 is a
 * parameter: any function from a key and a message to 32 octets.
 */
module Pbkdf2 {
  import opened Bytes

  const HASH_LEN: nat := 32

  type Digest = s: seq<Byte> | |s| == HASH_LEN witness seq(HASH_LEN, _ => 0)
  type Prf = (seq<Byte>, seq<Byte>) -> Digest

  /** INT(i): the low four octets of i, most significant first. */
  function Int4(i: nat): (r: seq<Byte>)
    ensures |r| == 4
  {
    [i / 0x100_0000 % 256, i / 0x1_0000 % 256, i / 0x100 % 256, i % 256]
  }

  /** Below 2^32 the four octets denote the block index itself, as the RFC asks. */
  lemma Int4Value(i: nat)
    requires i < 0x1_0000_0000
    ensures var r := Int4(i); (((r[0] as int) * 256 + r[1]) * 256 + r[2]) * 256 + r[3] == i
  {
    assert i / 0x1_0000 == i / 0x100 / 256;
    assert i / 0x100_0000 == i / 0x1_0000 / 256;
    assert i / 0x100_0000 < 256;
  }

  /** U_j of block i. */
  function U(prf: Prf, password: seq<Byte>, salt: seq<Byte>, i: nat, j: nat): (r: Digest)
    requires j >= 1
    decreases j
  {
    if j == 1 then prf(password, salt + Int4(i)) else prf(password, U(prf, password, salt, i, j - 1))
  }

  /** T_i = U_1 xor U_2 xor ... xor U_c. */
  function T(prf: Prf, password: seq<Byte>, salt: seq<Byte>, i: nat, c: nat): (r: Digest)
    requires c >= 1
    decreases c
  {
    if c == 1 then U(prf, password, salt, i, 1)
    else XorAll(T(prf, password, salt, i, c - 1), U(prf, password, salt, i, c))
  }

  /** T_1 || T_2 || ... || T_n. */
  function Blocks(prf: Prf, password: seq<Byte>, salt: seq<Byte>, c: nat, n: nat): (r: seq<Byte>)
    requires c >= 1
    ensures |r| == n * HASH_LEN
  {
    if n == 0 then [] else Blocks(prf, password, salt, c, n - 1) + T(prf, password, salt, n, c)
  }

  /** The number of blocks of a key of the given length. */
  function BlockCount(keyLen: nat): (l: nat)
    ensures keyLen <= l * HASH_LEN < keyLen + HASH_LEN
  {
    (keyLen + HASH_LEN - 1) / HASH_LEN
  }

  /** The first keyLen octets of the concatenated blocks. */
  function DerivedKey(prf: Prf, password: seq<Byte>, salt: seq<Byte>, c: nat, keyLen: nat): (dk: seq<Byte>)
    requires c >= 1
    ensures |dk| == keyLen
  {
    Blocks(prf, password, salt, c, BlockCount(keyLen))[..keyLen]
  }

  /** A keyed hash that accumulates its message, as hmac.New returns it. */
  class Mac {
    const prf: Prf
    const key: seq<Byte>
    var message: seq<Byte>

    constructor (prf: Prf, key: seq<Byte>)
      ensures this.prf == prf && this.key == key && message == []
    {
      this.prf, this.key, message := prf, key, [];
    }

    method Reset()
      modifies this
      ensures message == []
    {
      message := [];
    }

    method Write(data: seq<Byte>)
      modifies this
      ensures message == old(message) + data
    {
      message := message + data;
    }

    /** Sum(buffer[:0]): the digest lands in the buffer's own storage. */
    method SumInto(buffer: array<Byte>)
      requires buffer.Length == HASH_LEN
      modifies buffer
      ensures buffer[..] == prf(key, message)
    {
      var digest := prf(key, message);
      for i := 0 to HASH_LEN
        invariant buffer[..i] == digest[..i]
      {
        buffer[i] := digest[i];
      }
    }
  }

  /** Octet by octet, t becomes its exclusive or with u. */
  method XorInto(t: array<Byte>, u: array<Byte>)
    requires t != u && t.Length == u.Length
    modifies t
    ensures t[..] == XorAll(old(t[..]), u[..])
  {
    for i := 0 to t.Length
      invariant forall k :: 0 <= k < i ==> t[k] == Xor(old(t[k]), u[k])
      invariant forall k :: i <= k < t.Length ==> t[k] == old(t[k])
    {
      t[i] := Xor(t[i], u[i]);
    }
  }

  /** The octets of t overwrite those of u. */
  method CopyInto(u: array<Byte>, t: array<Byte>)
    requires t != u && t.Length == u.Length
    modifies u
    ensures u[..] == t[..]
  {
    for i := 0 to t.Length
      invariant u[..i] == t[..i]
    {
      u[i] := t[i];
    }
  }

  /** U_1 of a block, left in both buffers. */
  method FirstDigest(mac: Mac, salt: seq<Byte>, block: nat, u: array<Byte>, t: array<Byte>)
    requires u != t && u.Length == HASH_LEN && t.Length == HASH_LEN
    modifies mac, u, t
    ensures t[..] == u[..] == U(mac.prf, mac.key, salt, block, 1)
  {
    var blockIndex := [block / 0x100_0000 % 256, block / 0x1_0000 % 256, block / 0x100 % 256, block % 256];
    mac.Reset();
    mac.Write(salt);
    mac.Write(blockIndex);
    assert mac.message == salt + Int4(block);
    mac.SumInto(t);
    CopyInto(u, t);
  }

  /** One further round: the digest of u replaces u and is xored into t. */
  method NextDigest(mac: Mac, u: array<Byte>, t: array<Byte>)
    requires u != t && u.Length == HASH_LEN && t.Length == HASH_LEN
    modifies mac, u, t
    ensures u[..] == mac.prf(mac.key, old(u[..]))
    ensures t[..] == XorAll(old(t[..]), u[..])
  {
    mac.Reset();
    mac.Write(u[..]);
    assert mac.message == u[..];
    mac.SumInto(u);
    XorInto(t, u);
  }

  lemma NextStep(prf: Prf, password: seq<Byte>, salt: seq<Byte>, i: nat, c: nat, u: seq<Byte>, t: seq<Byte>)
    requires c >= 2 && |t| == HASH_LEN
    requires u == U(prf, password, salt, i, c - 1) && t == T(prf, password, salt, i, c - 1)
    ensures U(prf, password, salt, i, c) == prf(password, u)
    ensures T(prf, password, salt, i, c) == XorAll(t, prf(password, u))
  {
  }

  method BlockInto(mac: Mac, salt: seq<Byte>, block: nat, iterations: nat, u: array<Byte>, t: array<Byte>)
    requires iterations >= 1 && u != t && u.Length == HASH_LEN && t.Length == HASH_LEN
    modifies mac, u, t
    ensures t[..] == T(mac.prf, mac.key, salt, block, iterations)
  {
    FirstDigest(mac, salt, block, u, t);
    for round := 2 to iterations + 1
      invariant u[..] == U(mac.prf, mac.key, salt, block, round - 1)
      invariant t[..] == T(mac.prf, mac.key, salt, block, round - 1)
    {
      ghost var chained, folded := u[..], t[..];
      NextDigest(mac, u, t);
      NextStep(mac.prf, mac.key, salt, block, round, chained, folded);
    }
  }

  /**
   * pbkdf2SHA256: two digest buffers serve every block and every round, yet the
   * result is the derived key of the RFC for every input.
   */
  method Pbkdf2SHA256(prf: Prf, password: seq<Byte>, salt: seq<Byte>, iterations: int, keyLen: int)
    returns (derived: seq<Byte>)
    ensures iterations <= 0 || keyLen <= 0 ==> derived == []
    ensures iterations > 0 && keyLen > 0 ==> derived == DerivedKey(prf, password, salt, iterations, keyLen)
  {
    if iterations <= 0 || keyLen <= 0 {
      return [];
    }
    var mac := new Mac(prf, password);
    var blocks := (keyLen + HASH_LEN - 1) / HASH_LEN;
    derived := [];
    var u := new Byte[HASH_LEN];
    var t := new Byte[HASH_LEN];
    for block := 1 to blocks + 1
      invariant derived == Blocks(prf, password, salt, iterations, block - 1)
    {
      BlockInto(mac, salt, block, iterations, u, t);
      derived := derived + t[..];
    }
    derived := derived[..keyLen];
  }
}
