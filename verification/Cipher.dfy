/** AES-256 in counter mode as the program uses it (`AesSession`): a keystream that depends on key,
    initial counter block and position only (section 6.5 of NIST SP 800-38A), XORed onto the data,
    and one running position per direction. The block cipher itself is a parameter. */
module Cipher {
  import opened Wrappers

  newtype Byte = b: int | 0 <= b < 256
  type Bytes = seq<Byte>

  /** The keystream byte at each position. */
  type Keystream = nat -> Byte

  /** The cipher: a keystream for every key and initial counter block. */
  type Prf = (Bytes, Bytes) -> Keystream

  // The exclusive or of two numbers, bit by bit.

  function XorNat(a: nat, b: nat): nat
    decreases a
  {
    if a == 0 then b else if b == 0 then a else (a + b) % 2 + 2 * XorNat(a / 2, b / 2)
  }

  function Pow2(k: nat): (r: nat)
    ensures r > 0
  {
    if k == 0 then 1 else 2 * Pow2(k - 1)
  }

  lemma {:induction false} XorNatBound(a: nat, b: nat, k: nat)
    requires a < Pow2(k) && b < Pow2(k)
    ensures XorNat(a, b) < Pow2(k)
    decreases k
  {
    if a != 0 && b != 0 {
      XorNatBound(a / 2, b / 2, k - 1);
    }
  }

  /** Bit `k` of a number. */
  function Bit(n: nat, k: nat): bool { n / Pow2(k) % 2 == 1 }

  lemma {:induction false} MultipleStep(d: nat, a: nat, b: nat)
    ensures a < b ==> d * a + d <= d * b
    decreases b
  {
    if a < b {
      assert d * b == d * (b - 1) + d;
      MultipleStep(d, a, b - 1);
    }
  }

  lemma DivIs(n: nat, d: nat, q: nat, r: nat)
    requires n == d * q + r && r < d
    ensures n / d == q
  {
    var p := n / d;
    assert n == d * p + n % d;
    MultipleStep(d, q, p);
    MultipleStep(d, p, q);
  }

  lemma HalfOfDiv(n: nat, p: nat)
    requires p > 0
    ensures n / (2 * p) == n / 2 / p
  {
    var q, r := n / 2 / p, n / 2 % p;
    assert n / 2 == p * q + r;
    assert (2 * p) * q == 2 * (p * q);
    DivIs(n, 2 * p, q, 2 * r + n % 2);
  }

  lemma BitOfHalf(n: nat, k: nat)
    requires k > 0
    ensures Bit(n, k) == Bit(n / 2, k - 1)
  {
    HalfOfDiv(n, Pow2(k - 1));
  }

  lemma {:induction false} XorNatHalf(a: nat, b: nat)
    ensures XorNat(a, b) / 2 == XorNat(a / 2, b / 2) && XorNat(a, b) % 2 == (a + b) % 2
  {
  }

  lemma {:induction false} XorNatTwice(a: nat, b: nat)
    ensures XorNat(XorNat(a, b), b) == a
    decreases a + b
  {
    if a + b > 0 {
      hide XorNat;
      var x := XorNat(a, b);
      XorNatHalf(a, b);
      XorNatHalf(x, b);
      XorNatTwice(a / 2, b / 2);
      SameNumber(XorNat(x, b), x, a, b);
    }
  }

  lemma SameNumber(y: nat, x: nat, a: nat, b: nat)
    requires y / 2 == a / 2 && y % 2 == (x + b) % 2 && x % 2 == (a + b) % 2
    ensures y == a
  {
  }

  /** The exclusive or of two numbers has just the bits that one of them has and the other has not. */
  lemma {:induction false} XorNatBits(a: nat, b: nat, k: nat)
    ensures Bit(XorNat(a, b), k) <==> Bit(a, k) != Bit(b, k)
    decreases k
  {
    XorNatHalf(a, b);
    hide XorNat;
    if k == 0 {
      assert Pow2(0) == 1 && forall n: nat :: Bit(n, 0) == (n % 2 == 1);
    } else {
      hide Bit;
      XorNatBits(a / 2, b / 2, k - 1);
      BitOfHalf(XorNat(a, b), k);
      BitOfHalf(a, k);
      BitOfHalf(b, k);
    }
  }

  function ByteBit(b: Byte, k: nat): bool { Bit(b as nat, k) }

  lemma XorByteBits(a: Byte, b: Byte, k: nat)
    ensures ByteBit(XorByte(a, b), k) <==> ByteBit(a, k) != ByteBit(b, k)
  {
    XorNatBits(a as nat, b as nat, k);
  }

  function XorByte(a: Byte, b: Byte): Byte {
    assert XorNat(a as nat, b as nat) < 256 by {
      assert Pow2(8) == 256;
      XorNatBound(a as nat, b as nat, 8);
    }
    XorNat(a as nat, b as nat) as Byte
  }

  lemma XorByteTwice(a: Byte, b: Byte)
    ensures XorByte(XorByte(a, b), b) == a
  {
    XorNatTwice(a as nat, b as nat);
  }

  /** `bs` XORed with the keystream from position `pos` on. */
  function Xor(ks: Keystream, pos: nat, bs: Bytes): (r: Bytes)
    ensures |r| == |bs|
  {
    if bs == [] then []
    else
      var n := |bs| - 1;
      Xor(ks, pos, bs[..n]) + [XorByte(bs[n], ks(pos + n))]
  }

  lemma {:induction false} XorAt(ks: Keystream, pos: nat, bs: Bytes, i: nat)
    requires i < |bs|
    ensures Xor(ks, pos, bs)[i] == XorByte(bs[i], ks(pos + i))
  {
    if i < |bs| - 1 {
      XorAt(ks, pos, bs[..|bs| - 1], i);
    }
  }

  /** Bit by bit: `out` differs from `bs` exactly where the keystream from `pos` on has a bit set. */
  ghost predicate FlipsWhereSet(ks: Keystream, pos: nat, bs: Bytes, out: Bytes) {
    && |bs| <= |out|
    && forall i, k :: 0 <= i < |bs| && 0 <= k < 8 ==>
         (ByteBit(out[i], k) != ByteBit(bs[i], k) <==> ByteBit(ks(pos + i), k))
  }

  lemma XorFlips(ks: Keystream, pos: nat, bs: Bytes, rest: Bytes)
    ensures FlipsWhereSet(ks, pos, bs, Xor(ks, pos, bs) + rest)
  {
    forall i, k | 0 <= i < |bs| && 0 <= k < 8
      ensures ByteBit((Xor(ks, pos, bs) + rest)[i], k) != ByteBit(bs[i], k) <==> ByteBit(ks(pos + i), k)
    {
      XorAt(ks, pos, bs, i);
      XorByteBits(bs[i], ks(pos + i), k);
    }
  }

  /** XORing twice at the same position gives the data back. */
  lemma {:induction false} XorTwice(ks: Keystream, pos: nat, bs: Bytes)
    ensures Xor(ks, pos, Xor(ks, pos, bs)) == bs
  {
    if bs != [] {
      var n := |bs| - 1;
      XorTwice(ks, pos, bs[..n]);
      XorByteTwice(bs[n], ks(pos + n));
      assert Xor(ks, pos, bs)[..n] == Xor(ks, pos, bs[..n]);
    }
  }

  /** One call over two pieces is two calls, each starting where the other stopped. */
  lemma {:induction false} XorConcat(ks: Keystream, pos: nat, xs: Bytes, ys: Bytes)
    ensures Xor(ks, pos, xs + ys) == Xor(ks, pos, xs) + Xor(ks, pos + |xs|, ys)
  {
    hide Xor, XorByte;
    if ys == [] {
      assert xs + ys == xs;
    } else {
      var n := |ys| - 1;
      XorConcat(ks, pos, xs, ys[..n]);
      XorLast(ks, pos, xs + ys);
      XorLast(ks, pos + |xs|, ys);
      assert (xs + ys)[..|xs| + n] == xs + ys[..n];
    }
  }

  lemma XorLast(ks: Keystream, pos: nat, bs: Bytes)
    requires bs != []
    ensures var n := |bs| - 1; Xor(ks, pos, bs) == Xor(ks, pos, bs[..n]) + [XorByte(bs[n], ks(pos + n))]
  {
  }

  const KEY_SIZE: nat := 32
  const IV_SIZE: nat := 16

  class AesSession {
    const encrypting: Keystream
    const decrypting: Keystream
    var encrypted: nat   // bytes encrypted so far
    var decrypted: nat

    constructor (prf: Prf, key: Bytes, encryptIv: Bytes, decryptIv: Bytes)
      requires |key| == KEY_SIZE && |encryptIv| == IV_SIZE && |decryptIv| == IV_SIZE
      ensures encrypting == prf(key, encryptIv) && decrypting == prf(key, decryptIv)
      ensures encrypted == 0 && decrypted == 0
    {
      encrypting, decrypting := prf(key, encryptIv), prf(key, decryptIv);
      encrypted, decrypted := 0, 0;
    }

    /** `create`: refuses keys and counter blocks of the wrong size. */
    static method Create(prf: Prf, key: Bytes, encryptIv: Bytes, decryptIv: Bytes) returns (r: Option<AesSession>)
      ensures r.Some? <==> |key| == KEY_SIZE && |encryptIv| == IV_SIZE && |decryptIv| == IV_SIZE
      ensures r.Some? ==> && fresh(r.value) && r.value.encrypted == 0 && r.value.decrypted == 0
                          && r.value.encrypting == prf(key, encryptIv) && r.value.decrypting == prf(key, decryptIv)
    {
      if |key| != KEY_SIZE || |encryptIv| != IV_SIZE || |decryptIv| != IV_SIZE {
        return None;
      }
      var s := new AesSession(prf, key, encryptIv, decryptIv);
      r := Some(s);
    }

    /** Writes the encryption of `input` to the front of `output`; refuses an output too short. */
    method Encrypt(input: Bytes, output: array<Byte>) returns (ok: bool)
      modifies this`encrypted, output
      ensures ok == (|input| <= output.Length)
      ensures ok ==> output[..] == Xor(encrypting, old(encrypted), input) + old(output[..])[|input|..]
      ensures ok ==> FlipsWhereSet(encrypting, old(encrypted), input, output[..])
      ensures encrypted == old(encrypted) + (if ok then |input| else 0)
      ensures !ok ==> output[..] == old(output[..])
    {
      if output.Length < |input| {
        return false;
      }
      XorFlips(encrypting, encrypted, input, output[..][|input|..]);
      XorInto(encrypting, encrypted, input, output);
      encrypted := encrypted + |input|;
      ok := true;
    }

    method Decrypt(input: Bytes, output: array<Byte>) returns (ok: bool)
      modifies this`decrypted, output
      ensures ok == (|input| <= output.Length)
      ensures ok ==> output[..] == Xor(decrypting, old(decrypted), input) + old(output[..])[|input|..]
      ensures ok ==> FlipsWhereSet(decrypting, old(decrypted), input, output[..])
      ensures decrypted == old(decrypted) + (if ok then |input| else 0)
      ensures !ok ==> output[..] == old(output[..])
    {
      if output.Length < |input| {
        return false;
      }
      XorFlips(decrypting, decrypted, input, output[..][|input|..]);
      XorInto(decrypting, decrypted, input, output);
      decrypted := decrypted + |input|;
      ok := true;
    }
  }

  /** The counter-mode update that both directions share. */
  method XorInto(ks: Keystream, pos: nat, input: Bytes, output: array<Byte>)
    requires |input| <= output.Length
    modifies output
    ensures output[..] == Xor(ks, pos, input) + old(output[..])[|input|..]
  {
    for i := 0 to |input|
      invariant output[..i] == Xor(ks, pos, input[..i])
      invariant output[i..] == old(output[..])[i..]
    {
      assert input[..i + 1][..i] == input[..i];
      output[i] := XorByte(input[i], ks(pos + i));
      assert output[..i + 1] == output[..i] + [output[i]];
    }
    assert input[..|input|] == input;
    assert output[..] == output[..|input|] + output[|input|..];
  }

  // ----------------------------------------------------------------------------------------
  // Key material
  // ----------------------------------------------------------------------------------------

  const SALT: Bytes := [0x43, 0x68, 0x61, 0x72, 0x61, 0x5F, 0x56, 0x65, 0x72, 0x4B, 0x79, 0x73]
  const SALT_TEXT: string := "Chara_VerKys"
  const MATERIAL_SIZE: nat := 64

  lemma SaltIsText(i: nat)
    requires i < 12
    ensures |SALT| == |SALT_TEXT| == 12 && SALT[i] as int == SALT_TEXT[i] as int
  {
  }

  /** Bytes 12..24 of the buffer XORed with the salt. */
  function Salted(raw: Bytes): (r: Bytes)
    requires |raw| >= 24
    ensures |r| == |raw|
  {
    raw[..12] + seq(12, i requires 0 <= i < 12 => XorByte(raw[12 + i], SALT[i])) + raw[24..]
  }

  /** The salt loop, on the key buffer itself. */
  method SaltKey(a: array<Byte>)
    requires a.Length >= 24
    modifies a
    ensures a[..] == Salted(old(a[..]))
    ensures forall i :: 12 <= i < 24 ==> a[i] == XorByte(old(a[i]), SALT[i - 12])
    ensures forall i :: 0 <= i < a.Length && !(12 <= i < 24) ==> a[i] == old(a[i])
  {
    for i := 0 to 12
      invariant forall j :: 12 <= j < 12 + i ==> a[j] == XorByte(old(a[j]), SALT[j - 12])
      invariant forall j :: 0 <= j < 12 ==> a[j] == old(a[j])
      invariant forall j :: 12 + i <= j < a.Length ==> a[j] == old(a[j])
    {
      a[i + 12] := XorByte(a[i + 12], SALT[i]);
    }
  }

  /** The client draws key and counter blocks, sends them as one block of key material, and keeps
      the session for itself. The RSA envelope around the material is not modelled. */
  method ClientSession(prf: Prf, key: array<Byte>, iv1: Bytes, iv2: Bytes) returns (aes: AesSession, material: Bytes)
    requires key.Length == KEY_SIZE && |iv1| == IV_SIZE && |iv2| == IV_SIZE
    modifies key
    ensures fresh(aes) && aes.encrypted == 0 && aes.decrypted == 0
    ensures material == old(key[..]) + iv2 + iv1
    ensures aes.encrypting == prf(Salted(old(key[..])), iv1) && aes.decrypting == prf(Salted(old(key[..])), iv2)
  {
    material := key[..] + iv2 + iv1;
    SaltKey(key);
    var res := AesSession.Create(prf, key[..], iv1, iv2);
    aes := res.value;
  }

  /** The server salts the received block as a whole and cuts it up. */
  method ServerSession(prf: Prf, raw: array<Byte>) returns (aes: AesSession)
    requires raw.Length == MATERIAL_SIZE
    modifies raw
    ensures fresh(aes) && aes.encrypted == 0 && aes.decrypted == 0
    ensures aes.encrypting == prf(Salted(old(raw[..]))[..32], old(raw[..])[32..48])
    ensures aes.decrypting == prf(Salted(old(raw[..]))[..32], old(raw[..])[48..])
  {
    ghost var r := raw[..];
    SaltKey(raw);
    SaltOnlyKey(r);
    var res := AesSession.Create(prf, raw[..][..32], raw[..][32..48], raw[..][48..]);
    aes := res.value;
  }

  lemma SaltOnlyKey(raw: Bytes)
    requires |raw| == MATERIAL_SIZE
    ensures Salted(raw)[32..48] == raw[32..48] && Salted(raw)[48..] == raw[48..]
  {
  }

  /** The two ends mirror each other: for every key and counter blocks, each end decrypts with the
      keystream the other encrypts with. */
  method Handshake(prf: Prf, key: array<Byte>, iv1: Bytes, iv2: Bytes) returns (client: AesSession, server: AesSession)
    requires key.Length == KEY_SIZE && |iv1| == IV_SIZE && |iv2| == IV_SIZE
    modifies key
    ensures fresh(client) && fresh(server) && client != server
    ensures client.encrypted == client.decrypted == server.encrypted == server.decrypted == 0
    ensures client.encrypting == server.decrypting == prf(Salted(old(key[..])), iv1)
    ensures server.encrypting == client.decrypting == prf(Salted(old(key[..])), iv2)
  {
    ghost var k := key[..];
    var material;
    client, material := ClientSession(prf, key, iv1, iv2);
    var raw := new Byte[64](i requires 0 <= i < 64 => material[i]);
    assert raw[..] == k + iv2 + iv1;
    server := ServerSession(prf, raw);
    MaterialLayout(k, iv2, iv1);
  }

  lemma MaterialLayout(key: Bytes, x: Bytes, y: Bytes)
    requires |key| == KEY_SIZE && |x| == IV_SIZE && |y| == IV_SIZE
    ensures var raw := key + x + y;
            Salted(raw)[..32] == Salted(key) && raw[32..48] == x && raw[48..] == y
  {
  }
}
