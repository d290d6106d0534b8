/** SCRAM-SHA-256 primitives over an uninterpreted hash (src/scram/crypto.rs): exclusive or, HMAC (section 2 of
    RFC 2104), Hi (section 2.2 of RFC 5802) and the keys derived from them. */
module ScramCrypto {
  import opened Bytes

  const BLOCK := 64

  type Digest = d: seq<byte> | |d| == 32 witness seq(32, _ => 0)

  /** SHA-256, whatever it is. */
  type Hash = seq<byte> -> Digest

  // ---------------------------------------------------------------------------------------------
  // Exclusive or

  function Pow2(k: nat): (p: nat)
    ensures p > 0
  {
    if k == 0 then 1 else 2 * Pow2(k - 1)
  }

  /** On the low `k` bits, from the lowest up. */
  function XorBits(a: nat, b: nat, k: nat): (r: nat)
    requires a < Pow2(k) && b < Pow2(k)
    ensures r < Pow2(k)
  {
    if k == 0 then 0 else (a % 2 + b % 2) % 2 + 2 * XorBits(a / 2, b / 2, k - 1)
  }

  function Xor(a: byte, b: byte): (r: byte) {
    assert Pow2(8) == 256;
    XorBits(a, b, 8)
  }

  function Bit(n: nat, i: nat): nat {
    if i == 0 then n % 2 else Bit(n / 2, i - 1)
  }

  lemma XorHalves(a: nat, b: nat, k: nat)
    requires k > 0 && a < Pow2(k) && b < Pow2(k)
    ensures XorBits(a, b, k) % 2 == (a % 2 + b % 2) % 2 && XorBits(a, b, k) / 2 == XorBits(a / 2, b / 2, k - 1)
  {
    var low, high := (a % 2 + b % 2) % 2, XorBits(a / 2, b / 2, k - 1);
    assert XorBits(a, b, k) == low + 2 * high;
  }

  /** It is exclusive or: bit by bit, the bits that differ. */
  lemma {:induction false} XorIsBitwise(a: nat, b: nat, k: nat, i: nat)
    requires a < Pow2(k) && b < Pow2(k) && i < k
    ensures Bit(XorBits(a, b, k), i) == if Bit(a, i) == Bit(b, i) then 0 else 1
  {
    XorHalves(a, b, k);
    if i > 0 {
      XorIsBitwise(a / 2, b / 2, k - 1, i - 1);
    }
  }

  lemma ParityCancels(p: nat, q: nat)
    requires p < 2 && q < 2
    ensures ((p + q) % 2 + q) % 2 == p
  {
  }

  lemma SameHalves(x: nat, y: nat)
    requires x / 2 == y / 2 && x % 2 == y % 2
    ensures x == y
  {
  }

  lemma {:induction false} XorBitsCancels(a: nat, b: nat, k: nat)
    requires a < Pow2(k) && b < Pow2(k)
    ensures XorBits(XorBits(a, b, k), b, k) == a
  {
    if k > 0 {
      XorBitsCancels(a / 2, b / 2, k - 1);
      XorHalves(a, b, k);
      var r := XorBits(a, b, k);
      XorHalves(r, b, k);
      ParityCancels(a % 2, b % 2);
      SameHalves(XorBits(r, b, k), a);
    }
  }

  function XorAll(a: seq<byte>, b: seq<byte>): (r: seq<byte>)
    requires |a| == |b|
    ensures |r| == |a|
    ensures forall i :: 0 <= i < |r| ==> r[i] == Xor(a[i], b[i])
  {
    seq(|a|, i requires 0 <= i < |a| => Xor(a[i], b[i]))
  }

  /** A proof XORed with the signature gives the key back, and only that key makes that proof. */
  lemma XorAllCancels(a: seq<byte>, b: seq<byte>, c: seq<byte>)
    requires |a| == |b| == |c|
    ensures XorAll(a, b) == c <==> a == XorAll(c, b)
  {
    forall i | 0 <= i < |a|
      ensures Xor(Xor(a[i], b[i]), b[i]) == a[i] && Xor(Xor(c[i], b[i]), b[i]) == c[i]
    {
      assert Pow2(8) == 256;
      XorBitsCancels(a[i], b[i], 8);
      XorBitsCancels(c[i], b[i], 8);
    }
    if XorAll(a, b) == c {
      assert forall i :: 0 <= i < |a| ==> a[i] == XorAll(c, b)[i];
    }
    if a == XorAll(c, b) {
      assert forall i :: 0 <= i < |a| ==> XorAll(a, b)[i] == c[i];
    }
  }

  /** `client_proof`, and equally `recover_client_key`: the byte loop over two 32-byte arrays. */
  method XorKeys(a: array<byte>, b: array<byte>) returns (r: array<byte>)
    requires a.Length == b.Length == 32
    ensures fresh(r) && r[..] == XorAll(a[..], b[..])
  {
    r := new byte[32](_ => 0);
    for i := 0 to 32
      invariant forall j :: 0 <= j < i ==> r[j] == Xor(a[j], b[j])
    {
      r[i] := Xor(a[i], b[i]);
    }
  }

  // ---------------------------------------------------------------------------------------------
  // HMAC

  function Fill(x: byte, n: nat): (s: seq<byte>)
    ensures |s| == n && forall i :: 0 <= i < n ==> s[i] == x
  {
    seq(n, _ => x)
  }

  /** The key of RFC 2104: hashed if longer than a block, then zero-padded to one. */
  function BlockKey(h: Hash, key: seq<byte>): (k: seq<byte>)
    ensures |k| == BLOCK
  {
    var k := if |key| > BLOCK then h(key) else key;
    k + Fill(0, BLOCK - |k|)
  }

  /** H(K XOR opad, H(K XOR ipad, text)) */
  function Hmac(h: Hash, key: seq<byte>, text: seq<byte>): Digest {
    var k := BlockKey(h, key);
    h(XorAll(Fill(0x5c, BLOCK), k) + h(XorAll(Fill(0x36, BLOCK), k) + text))
  }

  /** The block key, copied into a zeroed array. */
  method PadKey(h: Hash, key: seq<byte>) returns (blockKey: array<byte>)
    ensures fresh(blockKey) && blockKey[..] == BlockKey(h, key)
  {
    blockKey := new byte[BLOCK](_ => 0);
    var k := if |key| > BLOCK then h(key) else key;
    for i := 0 to |k|
      invariant forall j :: 0 <= j < BLOCK ==> blockKey[j] == if j < i then k[j] else 0
    {
      blockKey[i] := k[i];
    }
  }

  /** `hmac_sha256` */
  method HmacSha256(h: Hash, key: seq<byte>, message: seq<byte>) returns (r: Digest)
    ensures r == Hmac(h, key, message)
  {
    var blockKey := PadKey(h, key);
    ghost var padded := blockKey[..];
    var ipad, opad := new byte[BLOCK](_ => 0x36), new byte[BLOCK](_ => 0x5c);
    for i := 0 to BLOCK
      modifies ipad, opad
      invariant forall j :: 0 <= j < BLOCK ==> ipad[j] == if j < i then Xor(0x36, blockKey[j]) else 0x36
      invariant forall j :: 0 <= j < BLOCK ==> opad[j] == if j < i then Xor(0x5c, blockKey[j]) else 0x5c
    {
      ipad[i] := Xor(ipad[i], blockKey[i]);
      opad[i] := Xor(opad[i], blockKey[i]);
    }
    assert ipad[..] == XorAll(Fill(0x36, BLOCK), padded);
    assert opad[..] == XorAll(Fill(0x5c, BLOCK), padded);
    var inner := h(ipad[..] + message);
    r := h(opad[..] + inner);
  }

  // ---------------------------------------------------------------------------------------------
  // PBKDF2

  /** U1 is the HMAC of salt || INT(1); each later U is the HMAC of the one before. */
  function U(h: Hash, password: seq<byte>, salt: seq<byte>, i: nat): Digest
    requires i >= 1
  {
    if i == 1 then Hmac(h, password, salt + PutI32(1)) else Hmac(h, password, U(h, password, salt, i - 1))
  }

  /** Hi: U1 XOR U2 XOR ... XOR Ui */
  function Hi(h: Hash, password: seq<byte>, salt: seq<byte>, i: nat): Digest
    requires i >= 1
  {
    if i == 1 then U(h, password, salt, 1) else XorAll(Hi(h, password, salt, i - 1), U(h, password, salt, i))
  }

  /** What the code computes: no iterations count as one. */
  function Stretch(h: Hash, password: seq<byte>, salt: seq<byte>, iterations: nat): Digest {
    Hi(h, password, salt, if iterations == 0 then 1 else iterations)
  }

  method Copied(d: Digest) returns (r: array<byte>)
    ensures fresh(r) && r[..] == d
  {
    r := new byte[32](i requires 0 <= i < 32 => d[i]);
  }

  /** The inner loop of `pbkdf2_hmac_sha256`. */
  method XorInto(result: array<byte>, u: Digest)
    requires result.Length == 32
    modifies result
    ensures result[..] == XorAll(old(result[..]), u)
  {
    for i := 0 to 32
      invariant forall j :: 0 <= j < 32 ==> result[j] == if j < i then Xor(old(result[j]), u[j]) else old(result[j])
    {
      result[i] := Xor(result[i], u[i]);
    }
  }

  /** `pbkdf2_hmac_sha256`, XORing each U into `result` in place. */
  method Pbkdf2HmacSha256(h: Hash, password: seq<byte>, salt: seq<byte>, iterations: nat) returns (result: array<byte>)
    ensures fresh(result) && result[..] == Stretch(h, password, salt, iterations)
    ensures iterations >= 1 ==> result[..] == Hi(h, password, salt, iterations)
  {
    var u: Digest := HmacSha256(h, password, salt + PutI32(1));
    result := Copied(u);
    ghost var n: nat := 1;
    var left: nat := if iterations == 0 then 0 else iterations - 1;
    while left > 0
      invariant n + left == if iterations == 0 then 1 else iterations
      invariant n >= 1 && u == U(h, password, salt, n)
      invariant result.Length == 32 && result[..] == Hi(h, password, salt, n)
    {
      u := HmacSha256(h, password, u);
      XorInto(result, u);
      n, left := n + 1, left - 1;
    }
  }

  // ---------------------------------------------------------------------------------------------
  // Keys

  const CLIENT_KEY := Ascii("Client Key")
  const SERVER_KEY := Ascii("Server Key")

  datatype ScramKeys = ScramKeys(client: Digest, stored: Digest, server: Digest)

  function FromSaltedPassword(h: Hash, salted: Digest): (k: ScramKeys)
    ensures k.stored == h(k.client)
  {
    var client := Hmac(h, salted, CLIENT_KEY);
    ScramKeys(client, h(client), Hmac(h, salted, SERVER_KEY))
  }

  /** Section 3 of RFC 5802: SaltedPassword is Hi, ClientKey and ServerKey are its HMACs of two fixed texts, and
      StoredKey is the hash of ClientKey. */
  function FromPassword(h: Hash, password: seq<byte>, salt: seq<byte>, iterations: nat): (k: ScramKeys)
    ensures k.stored == h(k.client)
    ensures iterations >= 1 ==>
              && k.client == Hmac(h, Hi(h, password, salt, iterations), Ascii("Client Key"))
              && k.server == Hmac(h, Hi(h, password, salt, iterations), Ascii("Server Key"))
  {
    FromSaltedPassword(h, Stretch(h, password, salt, iterations))
  }
}
