/** The phase 1 cryptography (src/gdoi/crypto.rs): suites, key derivation and
    CBC over a symbolic PRF, digest, block cipher, Diffie-Hellman exchange and
    signature. */
module IkeCrypto {
  import opened Octets
  import opened Isakmp

  const BLOCK: nat := 16

  type block = s: octets | |s| == 16 witness [0, 0, 0, 0, 0, 0, 0, 0, 0, 0, 0, 0, 0, 0, 0, 0]

  /** Both hashes give 32 to 64 octets. */
  type mac = s: octets | 32 <= |s| <= 64
    witness [0, 0, 0, 0, 0, 0, 0, 0, 0, 0, 0, 0, 0, 0, 0, 0, 0, 0, 0, 0, 0, 0, 0, 0, 0, 0, 0, 0, 0, 0, 0, 0]

  datatype HashAlg = Sha256 | Sha384

  /** The library functions the exchange rests on. `public` and `shared` take a
      group and a secret; `sign` and `verify` a method and a key; `subject` and
      `certKey` read a certificate; `trusted` checks a chain against roots. */
  datatype Crypto = Crypto(
    prf: (HashAlg, octets, octets) -> mac,
    digest: (HashAlg, octets) -> mac,
    encipher: (octets, block) -> block,
    decipher: (octets, block) -> block,
    public: (u16, octets) -> octets,
    shared: (u16, octets, octets) -> Option<octets>,
    sign: (u16, octets, octets) -> Option<octets>,
    verify: (u16, octets, octets, octets) -> bool,
    subject: octets -> Option<octets>,
    certKey: octets -> octets,
    trusted: (seq<octets>, seq<octets>) -> bool)

  function MacLength(h: HashAlg): nat { if h == Sha384 then 48 else 32 }

  /** What the protocol relies on: the PRF's length is its hash's, deciphering
      undoes enciphering, and both ends of a Diffie-Hellman exchange compute the
      same value. */
  ghost predicate Lawful(c: Crypto)
  {
    && (forall h: HashAlg, key: octets, data: octets :: |c.prf(h, key, data)| == MacLength(h))
    && (forall key: octets, b: block :: c.decipher(key, c.encipher(key, b)) == b)
    && (forall g: u16, x: octets, y: octets ::
          var a, b := c.shared(g, x, c.public(g, y)), c.shared(g, y, c.public(g, x));
          a.Some? && b.Some? ==> a == b)
  }

  // ---- Suites.

  const ATTR_ENC_ALG: u16 := 1
  const ATTR_HASH_ALG: u16 := 2
  const ATTR_AUTH_METH: u16 := 3
  const ATTR_GROUP_DESC: u16 := 4
  const ATTR_LIFE_TYPE: u16 := 11
  const ATTR_LIFE_DUR: u16 := 12
  const ATTR_KEY_LENGTH: u16 := 14

  const ENC_AES_CBC: u16 := 7
  const LIFE_SECONDS: u16 := 1
  const AUTH_PSK: u16 := 1
  const AUTH_RSA_SIG: u16 := 3
  const AUTH_ECDSA_256: u16 := 9
  const AUTH_ECDSA_384: u16 := 10

  const SHA2_256: u16 := 4
  const SHA2_384: u16 := 5

  datatype Suite = Suite(keyBits: u16, hash: u16, group: u16)

  predicate ValidSuite(s: Suite)
  {
    && (s.keyBits == 128 || s.keyBits == 256)
    && (s.hash == SHA2_256 || s.hash == SHA2_384)
    && (s.group == 14 || s.group == 19 || s.group == 20)
  }

  const DEFAULT_SUITES: seq<Suite> :=
    [Suite(256, SHA2_256, 19), Suite(128, SHA2_256, 19), Suite(256, SHA2_384, 20), Suite(128, SHA2_256, 14)]

  function HashOf(s: Suite): HashAlg { if s.hash == SHA2_384 then Sha384 else Sha256 }

  function SuiteAttrs(s: Suite, auth: u16, life: u32): (r: seq<Attribute>)
    ensures EncodableAttrs(r)
  {
    [ Basic(ATTR_ENC_ALG, ENC_AES_CBC), Basic(ATTR_KEY_LENGTH, s.keyBits), Basic(ATTR_HASH_ALG, s.hash),
      Basic(ATTR_GROUP_DESC, s.group), Basic(ATTR_AUTH_METH, auth), Basic(ATTR_LIFE_TYPE, LIFE_SECONDS),
      Variable(ATTR_LIFE_DUR, U32Octets(life)) ]
  }

  /** The value of an attribute of at most eight octets. */
  function AttrValue(attrs: seq<Attribute>, t: u16): Option<nat>
  {
    match AttrByType(attrs, t)
    case None => None
    case Some(a) => if |a.value| <= 8 then Some(BeValue(a.value)) else None
  }

  function SuiteFromAttrs(attrs: seq<Attribute>): (r: Option<(Suite, u16)>)
    ensures r.Some? ==> ValidSuite(r.value.0)
  {
    var enc, kl, h, g, am :=
      AttrValue(attrs, ATTR_ENC_ALG), AttrValue(attrs, ATTR_KEY_LENGTH), AttrValue(attrs, ATTR_HASH_ALG),
      AttrValue(attrs, ATTR_GROUP_DESC), AttrValue(attrs, ATTR_AUTH_METH);
    if enc.None? || kl.None? || h.None? || g.None? || am.None? || enc.value != ENC_AES_CBC then None
    else if kl.value >= 0x1_0000 || h.value >= 0x1_0000 || g.value >= 0x1_0000 || am.value >= 0x1_0000 then None
    else
      var s := Suite(kl.value, h.value, g.value);
      if ValidSuite(s) then Some((s, am.value)) else None
  }

  /** A transform's attributes name its suite and method, whatever they are;
      unsupported ones are refused. */
  lemma SuiteRoundTrip(s: Suite, auth: u16, life: u32)
    ensures SuiteFromAttrs(SuiteAttrs(s, auth, life)) == if ValidSuite(s) then Some((s, auth)) else None
  {
    hide BeValue, U16Octets, U32Octets;
    U16RoundTrip(ENC_AES_CBC);
    U16RoundTrip(s.keyBits);
    U16RoundTrip(s.hash);
    U16RoundTrip(s.group);
    U16RoundTrip(auth);
    var attrs := SuiteAttrs(s, auth, life);
    FindAttr(attrs, 0);
    FindAttr(attrs, 1);
    FindAttr(attrs, 2);
    FindAttr(attrs, 3);
    FindAttr(attrs, 4);
  }

  lemma {:induction false} FindAttr(attrs: seq<Attribute>, i: nat)
    requires i < |attrs| && forall k :: 0 <= k < i ==> attrs[k].kind != attrs[i].kind
    ensures AttrByType(attrs, attrs[i].kind) == Some(attrs[i])
  {
    if i > 0 { FindAttr(attrs[1..], i - 1); }
  }

  // ---- Exclusive or.

  function Pow2(n: nat): nat { if n == 0 then 1 else 2 * Pow2(n - 1) }

  function XorBits(a: nat, b: nat, n: nat): (r: nat)
    ensures r < Pow2(n)
  {
    if n == 0 then 0 else (if a % 2 == b % 2 then 0 else 1) + 2 * XorBits(a / 2, b / 2, n - 1)
  }

  lemma {:induction false} XorBitsTwice(a: nat, b: nat, n: nat)
    requires a < Pow2(n)
    ensures XorBits(XorBits(a, b, n), b, n) == a
  {
    if n > 0 {
      XorBitsTwice(a / 2, b / 2, n - 1);
      var half, x := XorBits(a / 2, b / 2, n - 1), XorBits(a, b, n);
      assert x / 2 == half && x % 2 == if a % 2 == b % 2 then 0 else 1;
    }
  }

  lemma EightBits()
    ensures Pow2(8) == 256
  {
    assert Pow2(4) == 16;
  }

  function XorByte(a: byte, b: byte): byte
  {
    EightBits();
    XorBits(a as int, b as int, 8) as byte
  }

  function XorBlock(a: block, b: block): block { seq(16, i requires 0 <= i < 16 => XorByte(a[i], b[i])) }

  lemma XorBlockTwice(a: block, b: block)
    ensures XorBlock(XorBlock(a, b), b) == a
  {
    EightBits();
    forall i | 0 <= i < 16 ensures XorByte(XorByte(a[i], b[i]), b[i]) == a[i] {
      XorBitsTwice(a[i] as int, b[i] as int, 8);
    }
  }

  // ---- CBC.

  /** A whole number of blocks. */
  predicate Whole(n: nat) { n % BLOCK == 0 }

  function CbcEncrypt(c: Crypto, key: octets, plain: octets, iv: block): (ct: octets)
    requires Whole(|plain|)
    ensures |ct| == |plain|
  {
    if plain == [] then []
    else
      var b := c.encipher(key, XorBlock(plain[..BLOCK], iv));
      b + CbcEncrypt(c, key, plain[BLOCK..], b)
  }

  function CbcDecrypt(c: Crypto, key: octets, ct: octets, iv: block): (plain: octets)
    requires Whole(|ct|)
    ensures |plain| == |ct|
  {
    if ct == [] then []
    else XorBlock(c.decipher(key, ct[..BLOCK]), iv) + CbcDecrypt(c, key, ct[BLOCK..], ct[..BLOCK])
  }

  lemma {:induction false} CbcInverse(c: Crypto, key: octets, plain: octets, iv: block)
    requires Lawful(c) && Whole(|plain|)
    ensures CbcDecrypt(c, key, CbcEncrypt(c, key, plain, iv), iv) == plain
    decreases |plain|
  {
    hide XorBlock;
    if plain != [] {
      var p: block := plain[..BLOCK];
      var b := c.encipher(key, XorBlock(p, iv));
      var rest: octets := CbcEncrypt(c, key, plain[BLOCK..], b);
      CbcInverse(c, key, plain[BLOCK..], b);
      XorBlockTwice(p, iv);
      var ct: octets := b + rest;
      assert ct[..BLOCK] == b && ct[BLOCK..] == rest;
      assert plain[..BLOCK] + plain[BLOCK..] == plain;
    }
  }

  function PaddedLength(n: nat): (r: nat)
    ensures r % BLOCK == 0 && n <= r && 0 < r < n + BLOCK + 1
  {
    if n % BLOCK != 0 || n == 0 then n + (BLOCK - n % BLOCK) else n
  }

  function Zeros(n: nat): (s: octets)
    ensures |s| == n && forall i :: 0 <= i < n ==> s[i] == 0
  {
    seq(n, i => 0)
  }

  /** Zeros up to a whole number of blocks, at least one. */
  function Padded(plain: octets): (r: octets)
    ensures |r| == PaddedLength(|plain|) && plain <= r
  {
    plain + Zeros(PaddedLength(|plain|) - |plain|)
  }

  /** The ciphertext, and the IV of the next message: its last block. */
  function Encrypt(c: Crypto, key: octets, plain: octets, iv: block): (octets, block)
  {
    var ct := CbcEncrypt(c, key, Padded(plain), iv);
    (ct, ct[|ct| - BLOCK..])
  }

  function Decrypt(c: Crypto, key: octets, ct: octets, iv: octets): Result<(octets, block), Fault>
  {
    if ct == [] || |ct| % BLOCK != 0 || |iv| != BLOCK then Err(Malformed)
    else Ok((CbcDecrypt(c, key, ct, iv), ct[|ct| - BLOCK..]))
  }

  /** Decrypting gives back the padded plaintext and the sender's next IV. */
  lemma DecryptOfEncrypt(c: Crypto, key: octets, plain: octets, iv: block)
    requires Lawful(c)
    ensures var (ct, next) := Encrypt(c, key, plain, iv);
            Decrypt(c, key, ct, iv) == Ok((Padded(plain), next))
  {
    CbcInverse(c, key, Padded(plain), iv);
  }

  // ---- CBC in place.

  method XorChunk(buf: array<byte>, at: nat, prev: block)
    requires at + BLOCK <= buf.Length
    modifies buf
    ensures buf[at..at + BLOCK] == XorBlock(old(buf[at..at + BLOCK]), prev)
    ensures buf[..at] == old(buf[..at]) && buf[at + BLOCK..] == old(buf[at + BLOCK..])
  {
    hide XorByte;
    for i := 0 to BLOCK
      invariant forall k :: 0 <= k < i ==> buf[at + k] == XorByte(old(buf[at + k]), prev[k])
      invariant forall k :: 0 <= k < buf.Length && !(at <= k < at + i) ==> buf[k] == old(buf[k])
    {
      buf[at + i] := XorByte(buf[at + i], prev[i]);
    }
  }

  method StoreChunk(buf: array<byte>, at: nat, b: block)
    requires at + BLOCK <= buf.Length
    modifies buf
    ensures buf[at..at + BLOCK] == b
    ensures buf[..at] == old(buf[..at]) && buf[at + BLOCK..] == old(buf[at + BLOCK..])
  {
    for i := 0 to BLOCK
      invariant forall k :: 0 <= k < i ==> buf[at + k] == b[k]
      invariant forall k :: 0 <= k < buf.Length && !(at <= k < at + i) ==> buf[k] == old(buf[k])
    {
      buf[at + i] := b[i];
    }
  }

  /** Whole blocks stay whole. */
  lemma ChunkLeft(n: nat, at: nat)
    requires at < n && Whole(n - at)
    ensures at + BLOCK <= n && Whole(n - (at + BLOCK))
  {
  }

  lemma EncryptStep(c: Crypto, key: octets, done: octets, rest: octets, prev: block)
    requires Whole(|rest|) && rest != []
    ensures var b := c.encipher(key, XorBlock(rest[..BLOCK], prev));
            done + CbcEncrypt(c, key, rest, prev) == done + b + CbcEncrypt(c, key, rest[BLOCK..], b)
  {
    hide XorBlock;
    var b := c.encipher(key, XorBlock(rest[..BLOCK], prev));
    Joined(done, b, CbcEncrypt(c, key, rest[BLOCK..], b));
  }

  method EncryptChunk(c: Crypto, key: octets, buf: array<byte>, at: nat, prev: block) returns (b: block)
    requires at + BLOCK <= buf.Length
    modifies buf
    ensures b == c.encipher(key, XorBlock(old(buf[at..at + BLOCK]), prev))
    ensures buf[..at + BLOCK] == old(buf[..at]) + b && buf[at + BLOCK..] == old(buf[at + BLOCK..])
  {
    hide XorBlock;
    XorChunk(buf, at, prev);
    b := c.encipher(key, buf[at..at + BLOCK]);
    StoreChunk(buf, at, b);
    assert buf[..at + BLOCK] == buf[..at] + buf[at..at + BLOCK];
  }

  method EncryptChunks(c: Crypto, key: octets, buf: array<byte>, iv: block) returns (prev: block)
    requires Whole(buf.Length)
    modifies buf
    ensures buf[..] == CbcEncrypt(c, key, old(buf[..]), iv)
    ensures prev == if buf.Length == 0 then iv else buf[buf.Length - BLOCK..]
  {
    hide XorBlock, CbcEncrypt, Whole;
    prev := iv;
    ghost var plain := buf[..];
    assert plain[0..] == plain && [] + CbcEncrypt(c, key, plain, iv) == CbcEncrypt(c, key, plain, iv);
    var at := 0;
    while at < buf.Length
      invariant 0 <= at <= buf.Length && Whole(buf.Length - at)
      invariant buf[at..] == plain[at..]
      invariant CbcEncrypt(c, key, plain, iv) == buf[..at] + CbcEncrypt(c, key, plain[at..], prev)
      invariant if at == 0 then prev == iv else at >= BLOCK && prev == buf[at - BLOCK..at]
    {
      ChunkLeft(buf.Length, at);
      ghost var done, rest := buf[..at], plain[at..];
      assert buf[at..at + BLOCK] == rest[..BLOCK] && rest[BLOCK..] == plain[at + BLOCK..];
      EncryptStep(c, key, done, rest, prev);
      prev := EncryptChunk(c, key, buf, at, prev);
      assert buf[at..at + BLOCK] == buf[..at + BLOCK][at..];
      at := at + BLOCK;
    }
    assert buf[..] == buf[..at] + [];
    assert CbcEncrypt(c, key, [], prev) == [] by { CbcEmpty(c, key, prev); }
  }

  lemma CbcEmpty(c: Crypto, key: octets, iv: block)
    ensures CbcEncrypt(c, key, [], iv) == []
  {
  }

  method EncryptBuffer(c: Crypto, key: octets, plain: octets, iv: block) returns (ct: octets, next: block)
    ensures (ct, next) == Encrypt(c, key, plain, iv)
  {
    var n := |plain|;
    var r := n % BLOCK;
    if r != 0 || n == 0 {
      n := n + (BLOCK - r);
    }
    var buf := new byte[n](i requires 0 <= i < n => if i < |plain| then plain[i] else 0);
    assert buf[..] == Padded(plain);
    next := EncryptChunks(c, key, buf, iv);
    ct := buf[..];
  }

  lemma DecryptStep(c: Crypto, key: octets, done: octets, rest: octets, prev: block)
    requires Whole(|rest|) && rest != []
    ensures done + CbcDecrypt(c, key, rest, prev)
         == done + XorBlock(c.decipher(key, rest[..BLOCK]), prev) + CbcDecrypt(c, key, rest[BLOCK..], rest[..BLOCK])
  {
    hide XorBlock;
    Joined(done, XorBlock(c.decipher(key, rest[..BLOCK]), prev), CbcDecrypt(c, key, rest[BLOCK..], rest[..BLOCK]));
  }

  method DecryptChunk(c: Crypto, key: octets, buf: array<byte>, at: nat, prev: block)
    requires at + BLOCK <= buf.Length
    modifies buf
    ensures buf[..at + BLOCK] == old(buf[..at]) + XorBlock(c.decipher(key, old(buf[at..at + BLOCK])), prev)
    ensures buf[at + BLOCK..] == old(buf[at + BLOCK..])
  {
    hide XorBlock;
    StoreChunk(buf, at, c.decipher(key, buf[at..at + BLOCK]));
    XorChunk(buf, at, prev);
    assert buf[..at + BLOCK] == buf[..at] + buf[at..at + BLOCK];
  }

  method DecryptChunks(c: Crypto, key: octets, ct: octets, buf: array<byte>, iv: block)
    requires buf[..] == ct && Whole(|ct|)
    modifies buf
    ensures buf[..] == CbcDecrypt(c, key, ct, iv)
  {
    hide XorBlock, CbcDecrypt, Whole;
    var prev: block := iv;
    assert ct[0..] == ct && [] + CbcDecrypt(c, key, ct, iv) == CbcDecrypt(c, key, ct, iv);
    var at := 0;
    while at < buf.Length
      invariant 0 <= at <= buf.Length && Whole(buf.Length - at)
      invariant buf[at..] == ct[at..]
      invariant CbcDecrypt(c, key, ct, iv) == buf[..at] + CbcDecrypt(c, key, ct[at..], prev)
    {
      ChunkLeft(buf.Length, at);
      ghost var done, rest := buf[..at], ct[at..];
      assert buf[at..at + BLOCK] == rest[..BLOCK] == ct[at..at + BLOCK] && rest[BLOCK..] == ct[at + BLOCK..];
      DecryptStep(c, key, done, rest, prev);
      DecryptChunk(c, key, buf, at, prev);
      prev := ct[at..at + BLOCK];
      at := at + BLOCK;
    }
    assert buf[..] == buf[..at] + [];
    assert CbcDecrypt(c, key, [], prev) == [] by { DecryptNothing(c, key, prev); }
  }

  lemma DecryptNothing(c: Crypto, key: octets, iv: block)
    ensures CbcDecrypt(c, key, [], iv) == []
  {
  }

  method DecryptBuffer(c: Crypto, key: octets, ct: octets, iv: octets) returns (r: Result<(octets, block), Fault>)
    ensures r == Decrypt(c, key, ct, iv)
  {
    if ct == [] || |ct| % BLOCK != 0 || |iv| != BLOCK {
      return Err(Malformed);
    }
    var next := ct[|ct| - BLOCK..];
    var buf := new byte[|ct|](i requires 0 <= i < |ct| => ct[i]);
    assert buf[..] == ct;
    DecryptChunks(c, key, ct, buf, iv);
    return Ok((buf[..], next));
  }

  // ---- Keying material.

  datatype Keys = Keys(hash: HashAlg, a: octets, key: octets, last: Option<block>)

  /** Material fed back through the PRF until there is enough. */
  function Expand(c: Crypto, h: HashAlg, e: octets, prev: octets, need: nat, done: octets): (r: octets)
    ensures |r| >= need
    decreases need - |done|
  {
    if |done| >= need then done
    else
      var next := c.prf(h, e, prev);
      Expand(c, h, e, next, need, done + next)
  }

  function KeyMaterial(c: Crypto, h: HashAlg, e: octets, need: nat): (r: octets)
    ensures |r| == need
  {
    if |e| >= need then e[..need] else Expand(c, h, e, [0], need, [])[..need]
  }

  function DeriveD(c: Crypto, h: HashAlg, skeyid: octets, gxy: octets, ci: octets, cr: octets): octets
  {
    c.prf(h, skeyid, gxy + ci + cr + [0])
  }

  function DeriveA(c: Crypto, h: HashAlg, skeyid: octets, gxy: octets, ci: octets, cr: octets): octets
  {
    c.prf(h, skeyid, DeriveD(c, h, skeyid, gxy, ci, cr) + gxy + ci + cr + [1])
  }

  function DeriveE(c: Crypto, h: HashAlg, skeyid: octets, gxy: octets, ci: octets, cr: octets): octets
  {
    c.prf(h, skeyid, DeriveA(c, h, skeyid, gxy, ci, cr) + gxy + ci + cr + [2])
  }

  function Derive(c: Crypto, s: Suite, skeyid: octets, gxy: octets, ci: octets, cr: octets): (r: Result<Keys, Fault>)
    ensures ValidSuite(s) ==> r.Ok?
    ensures r.Ok? ==> r.value.last.None?
  {
    var h := HashOf(s);
    var need := s.keyBits / 8;
    if need != 16 && need != 32 then Err(Config)
    else
      Ok(Keys(h, DeriveA(c, h, skeyid, gxy, ci, cr),
              KeyMaterial(c, h, DeriveE(c, h, skeyid, gxy, ci, cr), need), None))
  }

  method DeriveKeys(c: Crypto, s: Suite, skeyid: octets, gxy: octets, ci: octets, cr: octets)
    returns (r: Result<Keys, Fault>)
    ensures r == Derive(c, s, skeyid, gxy, ci, cr)
  {
    var h := HashOf(s);
    var d := c.prf(h, skeyid, gxy + ci + cr + [0]);
    var a := c.prf(h, skeyid, d + gxy + ci + cr + [1]);
    var e := c.prf(h, skeyid, a + gxy + ci + cr + [2]);
    var need := s.keyBits / 8;
    var material: octets := e;
    if |material| < need {
      var ka: octets, prev: octets := [], [0];
      while |ka| < need
        invariant Expand(c, h, e, [0], need, []) == Expand(c, h, e, prev, need, ka)
      {
        prev := c.prf(h, e, prev);
        ka := ka + prev;
      }
      material := ka;
    }
    if need != 16 && need != 32 {
      return Err(Config);
    }
    return Ok(Keys(h, a, material[..need], None));
  }

  /** With either hash the PRF output holds a whole key, so the key is the
      start of SKEYID_e and nothing is expanded. */
  lemma KeyIsSkeyidE(c: Crypto, s: Suite, skeyid: octets, gxy: octets, ci: octets, cr: octets)
    requires ValidSuite(s)
    ensures var k := Derive(c, s, skeyid, gxy, ci, cr).value;
            k.key == DeriveE(c, HashOf(s), skeyid, gxy, ci, cr)[..s.keyBits / 8]
  {
    hide DeriveA;
  }

  function Phase1Iv(c: Crypto, h: HashAlg, gxi: octets, gxr: octets): block { c.digest(h, gxi + gxr)[..BLOCK] }

  function Phase2Iv(c: Crypto, k: Keys, msgId: u32): block
  {
    c.digest(k.hash, (if k.last.Some? then k.last.value else []) + U32Octets(msgId))[..BLOCK]
  }

  /** SKEYID (section 5 of RFC 2409): from the pre-shared key and the nonces, or
      from the nonces and the shared secret. */
  function Skeyid(c: Crypto, h: HashAlg, auth: u16, psk: octets, ni: octets, nr: octets, gxy: octets): octets
  {
    if auth == AUTH_PSK then c.prf(h, psk, ni + nr) else c.prf(h, ni + nr, gxy)
  }

  // ---- Signatures.

  predicate SignatureMethod(auth: u16) { auth == AUTH_RSA_SIG || auth == AUTH_ECDSA_256 || auth == AUTH_ECDSA_384 }

  function Sign(c: Crypto, auth: u16, key: octets, h: octets): Result<octets, Fault>
  {
    if !SignatureMethod(auth) then Err(Config)
    else
      match c.sign(auth, key, h)
      case None => Err(Auth)
      case Some(s) => Ok(s)
  }

  predicate Verifies(c: Crypto, auth: u16, key: octets, h: octets, sig: octets)
  {
    SignatureMethod(auth) && c.verify(auth, key, h, sig)
  }

  // ---- Comparison.

  function OrBits(a: nat, b: nat, n: nat): (r: nat)
    ensures r < Pow2(n)
  {
    if n == 0 then 0 else (if a % 2 == 1 || b % 2 == 1 then 1 else 0) + 2 * OrBits(a / 2, b / 2, n - 1)
  }

  function OrByte(a: byte, b: byte): byte
  {
    EightBits();
    OrBits(a as int, b as int, 8) as byte
  }

  lemma {:induction false} OrBitsZero(a: nat, b: nat, n: nat)
    requires a < Pow2(n) && b < Pow2(n)
    ensures OrBits(a, b, n) == 0 <==> a == 0 && b == 0
  {
    if n > 0 { OrBitsZero(a / 2, b / 2, n - 1); }
  }

  lemma {:induction false} XorBitsZero(a: nat, b: nat, n: nat)
    requires a < Pow2(n) && b < Pow2(n)
    ensures XorBits(a, b, n) == 0 <==> a == b
  {
    if n > 0 { XorBitsZero(a / 2, b / 2, n - 1); }
  }

  /** Compares MACs without stopping at a difference: it is equality all the same. */
  method ConstantEq(a: octets, b: octets) returns (eq: bool)
    ensures eq <==> a == b
  {
    hide XorBits, OrBits, Pow2;
    if |a| != |b| {
      return false;
    }
    var acc: byte := 0;
    EightBits();
    for i := 0 to |a|
      invariant acc == 0 <==> a[..i] == b[..i]
    {
      XorBitsZero(a[i] as int, b[i] as int, 8);
      OrBitsZero(acc as int, XorByte(a[i], b[i]) as int, 8);
      acc := OrByte(acc, XorByte(a[i], b[i]));
      assert a[..i + 1] == a[..i] + [a[i]] && b[..i + 1] == b[..i] + [b[i]];
    }
    assert a[..|a|] == a && b[..|b|] == b;
    return acc == 0;
  }
}
