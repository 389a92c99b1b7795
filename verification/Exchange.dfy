/** What the group member and the key server share (src/gdoi/exchange.rs): the
    phase 1 SA payload, message protection, certificates, notifications. */
module Exchange {
  import opened Octets
  import opened Isakmp
  import opened IkeCrypto

  const PHASE1_LIFE: u32 := 3600
  const NONCE_LEN: nat := 32

  // ---- The phase 1 SA.

  /** A transform as offered: the body a responder echoes, and what it names. */
  datatype Transform = Transform(body: octets, suite: Suite, auth: u16)

  function TransformBody(i: nat, s: Suite, auth: u16): octets
  {
    [((i + 1) % 256) as byte, TRANS_KEY_IKE, 0, 0] + EncodeAttrs(SuiteAttrs(s, auth, PHASE1_LIFE))
  }

  function OfferPayloads(suites: seq<Suite>, auth: u16): (ps: seq<Payload>)
    ensures |ps| == |suites|
    ensures forall i :: 0 <= i < |ps| ==> ps[i] == Payload(P_TRANS, TransformBody(i, suites[i], auth))
  {
    seq(|suites|, i requires 0 <= i < |suites| => Payload(P_TRANS, TransformBody(i, suites[i], auth)))
  }

  function ProposalBody(ts: seq<Payload>): octets
  {
    [1, PROTO_ISAKMP, 0, (|ts| % 256) as byte] + EncodeChain(ts, P_NONE)
  }

  function Phase1SaWithDoi(doi: u32, ts: seq<Payload>): octets
  {
    U32Octets(doi) + U32Octets(SIT_IDENTITY) + EncodeChain([Payload(P_PROPOSAL, ProposalBody(ts))], P_NONE)
  }

  function Phase1SaBody(suites: seq<Suite>, auth: u16): octets
  {
    Phase1SaWithDoi(DOI_GDOI, OfferPayloads(suites, auth))
  }

  /** What one transform payload names: nothing when it is not an IKE transform
      or not supported. */
  function TransformOf(body: octets): (r: Result<Option<Transform>, Fault>)
    ensures r.Ok? && r.value.Some? ==> r.value.value.body == body && ValidSuite(r.value.value.suite)
  {
    if |body| < 4 || body[1] != TRANS_KEY_IKE then Ok(None)
    else
      match ParseAttrs(body[4..])
      case Err(f) => Err(f)
      case Ok(attrs) =>
        match SuiteFromAttrs(attrs)
        case None => Ok(None)
        case Some((s, auth)) => Ok(Some(Transform(body, s, auth)))
  }

  function TransformsOf(ts: seq<Payload>): (r: Result<seq<Transform>, Fault>)
    ensures r.Ok? ==> forall i :: 0 <= i < |r.value| ==> ValidSuite(r.value[i].suite)
  {
    if ts == [] then Ok([])
    else
      match TransformOf(ts[0].body)
      case Err(f) => Err(f)
      case Ok(t) =>
        match TransformsOf(ts[1..])
        case Err(f) => Err(f)
        case Ok(rest) => Ok(if t.Some? then [t.value] + rest else rest)
  }

  function ProposalOf(b: octets): Result<octets, Fault>
  {
    if |b| < 8 then Err(Malformed)
    else
      var doi := U32Of(b[0], b[1], b[2], b[3]);
      if doi != DOI_GDOI && doi != 1 then Err(Malformed)
      else
        match ParseChain(b[8..], P_PROPOSAL)
        case Err(f) => Err(f)
        case Ok((props, _)) =>
          if |props| != 1 then Err(Malformed)
          else
            var p := props[0].body;
            if |p| < 4 || p[1] != PROTO_ISAKMP || p[2] != 0 then Err(Malformed) else Ok(p[4..])
  }

  /** The supported transforms of a phase 1 SA's single proposal. */
  function ParsePhase1Sa(b: octets): (r: Result<seq<Transform>, Fault>)
    ensures r.Ok? ==> forall i :: 0 <= i < |r.value| ==> ValidSuite(r.value[i].suite)
  {
    match ProposalOf(b)
    case Err(f) => Err(f)
    case Ok(p) =>
      match ParseChain(p, P_TRANS)
      case Err(f) => Err(f)
      case Ok((ts, _)) => TransformsOf(ts)
  }

  ghost function Onto(done: seq<Transform>, r: Result<seq<Transform>, Fault>): Result<seq<Transform>, Fault>
  {
    match r
    case Err(f) => Err(f)
    case Ok(rest) => Ok(done + rest)
  }

  method ReadTransforms(ts: seq<Payload>) returns (r: Result<seq<Transform>, Fault>)
    ensures r == TransformsOf(ts)
  {
    hide ParseAttrs, SuiteFromAttrs;
    var out: seq<Transform> := [];
    assert ts[0..] == ts;
    assert TransformsOf(ts).Ok? ==> [] + TransformsOf(ts).value == TransformsOf(ts).value;
    for i := 0 to |ts|
      invariant TransformsOf(ts) == Onto(out, TransformsOf(ts[i..]))
    {
      var body := ts[i].body;
      assert ts[i..][1..] == ts[i + 1..];
      if |body| < 4 || body[1] != TRANS_KEY_IKE { continue; }
      var attrs := ReadAttrs(body[4..]);
      if attrs.Err? {
        return Err(attrs.error);
      }
      var suite := SuiteFromAttrs(attrs.value);
      if suite.Some? {
        var t := Transform(body, suite.value.0, suite.value.1);
        ghost var rest := TransformsOf(ts[i + 1..]);
        assert rest.Ok? ==> out + ([t] + rest.value) == out + [t] + rest.value;
        out := out + [t];
      }
    }
    assert out + [] == out;
    return Ok(out);
  }

  method ReadPhase1Sa(b: octets) returns (r: Result<seq<Transform>, Fault>)
    ensures r == ParsePhase1Sa(b)
  {
    hide ParseChain, TransformsOf;
    if |b| < 8 { return Err(Malformed); }
    var doi := U32Of(b[0], b[1], b[2], b[3]);
    if doi != DOI_GDOI && doi != 1 { return Err(Malformed); }
    var props := ReadChain(b[8..], P_PROPOSAL);
    if props.Err? { return Err(props.error); }
    if |props.value.0| != 1 { return Err(Malformed); }
    var p := props.value.0[0].body;
    if |p| < 4 || p[1] != PROTO_ISAKMP || p[2] != 0 { return Err(Malformed); }
    var ts := ReadChain(p[4..], P_TRANS);
    if ts.Err? { return Err(ts.error); }
    r := ReadTransforms(ts.value.0);
  }

  function Offers(suites: seq<Suite>, auth: u16): seq<Transform>
  {
    seq(|suites|, i requires 0 <= i < |suites| => Transform(TransformBody(i, suites[i], auth), suites[i], auth))
  }

  predicate AllValid(suites: seq<Suite>) { forall i :: 0 <= i < |suites| ==> ValidSuite(suites[i]) }

  lemma TransformReads(i: nat, s: Suite, auth: u16)
    requires ValidSuite(s)
    ensures var b := TransformBody(i, s, auth);
            |b| == 36 && TransformOf(b) == Ok(Some(Transform(b, s, auth)))
  {
    hide ParseAttrs, SuiteFromAttrs, SuiteAttrs, EncodeAttrs, ValidSuite;
    var attrs := SuiteAttrs(s, auth, PHASE1_LIFE);
    AttrsRoundTrip(attrs);
    SuiteRoundTrip(s, auth, PHASE1_LIFE);
    assert TransformBody(i, s, auth)[4..] == EncodeAttrs(attrs);
    SuiteAttrsLength(s, auth, PHASE1_LIFE);
  }

  lemma SuiteAttrsLength(s: Suite, auth: u16, life: u32)
    ensures |EncodeAttrs(SuiteAttrs(s, auth, life))| == 32
  {
    hide U16Octets, U32Octets, AttrOctets, EncodeAttrs;
    var a := SuiteAttrs(s, auth, life);
    AttrsFrom(a, 0);
    AttrsFrom(a, 1);
    AttrsFrom(a, 2);
    AttrsFrom(a, 3);
    AttrsFrom(a, 4);
    AttrsFrom(a, 5);
    AttrsFrom(a, 6);
    EncodeEnds(a);
    assert a[0..] == a;
  }

  lemma AttrsFrom(a: seq<Attribute>, i: nat)
    requires AllWellMade(a) && i < |a|
    ensures |EncodeAttrs(a[i..])| == |AttrOctets(a[i])| + |EncodeAttrs(a[i + 1..])|
    ensures |AttrOctets(a[i])| == if a[i].basic then 4 else 4 + |a[i].value|
  {
    hide U16Octets;
    assert a[i..][1..] == a[i + 1..];
  }

  lemma {:induction false} OffersReadFrom(suites: seq<Suite>, auth: u16, i: nat)
    requires AllValid(suites) && i <= |suites|
    ensures TransformsOf(OfferPayloads(suites, auth)[i..]) == Ok(Offers(suites, auth)[i..])
    decreases |suites| - i
  {
    hide TransformOf, TransformBody;
    if i < |suites| {
      OffersReadFrom(suites, auth, i + 1);
      TransformReads(i, suites[i], auth);
      var ps, ts := OfferPayloads(suites, auth), Offers(suites, auth);
      assert ps[i..][1..] == ps[i + 1..] && ps[i..][0] == ps[i];
      assert [ts[i]] + ts[i + 1..] == ts[i..];
    } else {
      assert OfferPayloads(suites, auth)[i..] == [] && Offers(suites, auth)[i..] == [];
    }
  }

  lemma {:induction false} ChainOfEqual(ps: seq<Payload>, n: nat)
    requires forall i :: 0 <= i < |ps| ==> RawLength(ps[i]) == n
    ensures |EncodeChain(ps, P_NONE)| == n * |ps|
    decreases ps
  {
    if ps != [] { ChainOfEqual(ps[1..], n); }
  }

  /** A proposal that fits its length field reads back. */
  lemma SaReads(doi: u32, ts: seq<Payload>)
    requires doi == 1 || doi == DOI_GDOI
    requires Encodable(ts) && 1 <= |ts| <= MAX_PAYLOADS && ts[0].kind == P_TRANS && |EncodeChain(ts, P_NONE)| < 0xffe0
    ensures ParsePhase1Sa(Phase1SaWithDoi(doi, ts)) == TransformsOf(ts)
    ensures var b := Phase1SaWithDoi(doi, ts); |b| >= 4 && U32Of(b[0], b[1], b[2], b[3]) == doi
  {
    hide EncodeChain, TransformsOf, U32Octets, U32Of, ParseChain;
    var p := ProposalBody(ts);
    var prop := [Payload(P_PROPOSAL, p)];
    var b := Phase1SaWithDoi(doi, ts);
    U32RoundTrip(doi);
    assert b[0..4] == U32Octets(doi);
    Four(b, 0);
    assert b[8..] == EncodeChain(prop, P_NONE);
    assert EncodeChain(prop, P_NONE) + [] == EncodeChain(prop, P_NONE);
    ChainRoundTrip(prop, []);
    assert p[4..] == EncodeChain(ts, P_NONE) && EncodeChain(ts, P_NONE) + [] == EncodeChain(ts, P_NONE);
    ChainRoundTrip(ts, []);
  }

  /** Up to 64 valid suites are offered and read back in order. */
  lemma OffersRead(suites: seq<Suite>, auth: u16)
    requires AllValid(suites) && 1 <= |suites| <= MAX_PAYLOADS
    ensures ParsePhase1Sa(Phase1SaBody(suites, auth)) == Ok(Offers(suites, auth))
    ensures |Phase1SaBody(suites, auth)| == 16 + 40 * |suites|
  {
    hide ParsePhase1Sa, TransformBody, EncodeChain, TransformsOf;
    var ps := OfferPayloads(suites, auth);
    forall i | 0 <= i < |suites| ensures |ps[i].body| == 36 { TransformReads(i, suites[i], auth); }
    ChainOfEqual(ps, 40);
    SaReads(DOI_GDOI, ps);
    OffersReadFrom(suites, auth, 0);
    assert ps[0..] == ps && Offers(suites, auth)[0..] == Offers(suites, auth);
    SaLength(DOI_GDOI, ps);
  }

  lemma SaLength(doi: u32, ts: seq<Payload>)
    ensures |Phase1SaWithDoi(doi, ts)| == 16 + |EncodeChain(ts, P_NONE)|
  {
    hide EncodeChain, U32Octets;
    var prop := [Payload(P_PROPOSAL, ProposalBody(ts))];
    ChainOfEqual(prop, 8 + |EncodeChain(ts, P_NONE)|);
  }

  /** A single transform, echoed under the initiator's DOI, reads back as itself. */
  lemma ChosenReads(doi: u32, t: Transform)
    requires doi == 1 || doi == DOI_GDOI
    requires TransformOf(t.body) == Ok(Some(t)) && |t.body| < 0xff00
    ensures ParsePhase1Sa(Phase1SaWithDoi(doi, [Payload(P_TRANS, t.body)])) == Ok([t])
    ensures |Phase1SaWithDoi(doi, [Payload(P_TRANS, t.body)])| == 20 + |t.body|
  {
    hide TransformOf, ParsePhase1Sa, Phase1SaWithDoi, EncodeChain, TransformsOf;
    var ts := [Payload(P_TRANS, t.body)];
    ChainOfEqual(ts, RawLength(ts[0]));
    SaReads(doi, ts);
    SaLength(doi, ts);
    OneTransform(t);
  }

  lemma OneTransform(t: Transform)
    requires TransformOf(t.body) == Ok(Some(t))
    ensures TransformsOf([Payload(P_TRANS, t.body)]) == Ok([t])
  {
    hide TransformOf;
    var ts := [Payload(P_TRANS, t.body)];
    assert ts[1..] == [];
    assert [t] + [] == [t];
  }

  // ---- Messages.

  function Labelled(h: Header, ps: seq<Payload>, flags: byte, size: nat): Header
  {
    h.(next := if ps == [] then h.next else ps[0].kind, flags := flags, length := (HEADER_LEN + size) % 0x1_0000_0000)
  }

  /** A clear message. */
  function Message(h: Header, ps: seq<Payload>): octets
  {
    var body := EncodeChain(ps, P_NONE);
    HeaderOctets(Labelled(h, ps, h.flags - h.flags % 2, |body|)) + body
  }

  function SealedFlags(flags: byte): byte { if flags % 2 == 1 then flags else flags + 1 }

  /** An encrypted message, and the IV of the next one. */
  function Sealed(c: Crypto, k: Keys, h: Header, ps: seq<Payload>, iv: block): (octets, block)
  {
    var (ct, next) := Encrypt(c, k.key, EncodeChain(ps, P_NONE), iv);
    (HeaderOctets(Labelled(h, ps, SealedFlags(h.flags), |ct|)) + ct, next)
  }

  /** A message's payloads, the octets of their chain, and the IV after it. */
  datatype Opened = Opened(header: Header, payloads: seq<Payload>, chain: octets, nextIv: octets)

  function BodyOf(c: Crypto, keys: Option<Keys>, h: Header, body: octets, iv: octets): Result<(octets, octets), Fault>
  {
    if !Encrypted(h) then Ok((body, iv))
    else if keys.None? then Err(Malformed)
    else
      match Decrypt(c, keys.value.key, body, iv)
      case Err(f) => Err(f)
      case Ok((plain, next)) => Ok((plain, next))
  }

  function Open(c: Crypto, keys: Option<Keys>, msg: octets, iv: octets): (r: Result<Opened, Fault>)
    ensures r.Ok? ==> HeaderOf(msg) == Ok(r.value.header)
    ensures r.Ok? && Encrypted(r.value.header) ==> keys.Some? && |r.value.nextIv| == BLOCK
    ensures r.Ok? && !Encrypted(r.value.header) ==> r.value.nextIv == iv
  {
    match HeaderOf(msg)
    case Err(f) => Err(f)
    case Ok(h) =>
      match BodyOf(c, keys, h, msg[HEADER_LEN..h.length], iv)
      case Err(f) => Err(f)
      case Ok((body, next)) =>
        match ParseChain(body, h.next)
        case Err(f) => Err(f)
        case Ok((ps, n)) => Ok(Opened(h, ps, body[..n], next))
  }

  method Seal(c: Crypto, k: Keys, h: Header, ps: seq<Payload>, iv: block) returns (msg: octets, next: block)
    ensures (msg, next) == Sealed(c, k, h, ps, iv)
  {
    hide EncodeChain, Encrypt, HeaderOctets;
    var chain := AppendChain(ps, P_NONE);
    var ct: octets;
    ct, next := EncryptBuffer(c, k.key, chain, iv);
    var hd := h;
    if ps != [] {
      hd := hd.(next := ps[0].kind);
    }
    hd := hd.(flags := SealedFlags(hd.flags), length := (HEADER_LEN + |ct|) % 0x1_0000_0000);
    msg := HeaderOctets(hd);
    msg := msg + ct;
  }

  method OpenBuffer(c: Crypto, keys: Option<Keys>, msg: octets, iv: octets) returns (r: Result<Opened, Fault>)
    ensures r == Open(c, keys, msg, iv)
  {
    hide ParseChain, Decrypt, HeaderOf;
    var h := HeaderOf(msg);
    if h.Err? { return Err(h.error); }
    var body, next := msg[HEADER_LEN..h.value.length], iv;
    if Encrypted(h.value) {
      if keys.None? { return Err(Malformed); }
      var plain := DecryptBuffer(c, keys.value.key, body, iv);
      if plain.Err? { return Err(plain.error); }
      body, next := plain.value.0, plain.value.1;
    }
    var chain := ReadChain(body, h.value.next);
    if chain.Err? { return Err(chain.error); }
    body := body[..chain.value.1];
    return Ok(Opened(h.value, chain.value.0, body, next));
  }

  /** Payloads a message of at most 65535 octets can carry. */
  predicate Sendable(ps: seq<Payload>)
  {
    Encodable(ps) && 1 <= |ps| <= MAX_PAYLOADS && HEADER_LEN + PaddedLength(|EncodeChain(ps, P_NONE)|) <= MAX_MESSAGE
  }

  lemma OpenMessage(c: Crypto, keys: Option<Keys>, h: Header, ps: seq<Payload>, iv: octets)
    requires Sendable(ps)
    ensures var size := |EncodeChain(ps, P_NONE)|;
            Open(c, keys, Message(h, ps), iv)
            == Ok(Opened(Labelled(h, ps, h.flags - h.flags % 2, size), ps, EncodeChain(ps, P_NONE), iv))
  {
    hide EncodeChain, ParseChain, HeaderOf, HeaderOctets, Decrypt;
    var body := EncodeChain(ps, P_NONE);
    var hd := Labelled(h, ps, h.flags - h.flags % 2, |body|);
    HeaderRoundTrip(hd, body);
    var msg := Message(h, ps);
    assert msg[HEADER_LEN..hd.length] == body;
    assert body + [] == body && body[..|body|] == body;
    ChainRoundTrip(ps, []);
  }

  /** Opening a sealed message with the same key and IV gives its payloads, the
      octets of their chain without padding, and the sender's next IV. */
  lemma OpenSealed(c: Crypto, k: Keys, k': Keys, h: Header, ps: seq<Payload>, iv: block)
    requires Lawful(c) && Sendable(ps) && k.key == k'.key
    ensures var (msg, next) := Sealed(c, k, h, ps, iv);
            var chain := EncodeChain(ps, P_NONE);
            Open(c, Some(k'), msg, iv)
            == Ok(Opened(Labelled(h, ps, SealedFlags(h.flags), PaddedLength(|chain|)), ps, chain, next))
  {
    hide EncodeChain, ParseChain, HeaderOf, HeaderOctets, Decrypt, CbcEncrypt;
    var chain := EncodeChain(ps, P_NONE);
    var (ct, next) := Encrypt(c, k.key, chain, iv);
    var hd := Labelled(h, ps, SealedFlags(h.flags), |ct|);
    HeaderRoundTrip(hd, ct);
    var msg := HeaderOctets(hd) + ct;
    assert msg[HEADER_LEN..hd.length] == ct;
    DecryptOfEncrypt(c, k.key, chain, iv);
    var padding := Zeros(PaddedLength(|chain|) - |chain|);
    ChainRoundTrip(ps, padding);
    assert Padded(chain)[..|chain|] == chain;
  }

  /** The payloads after a leading HASH and the octets they occupy. */
  function Hashed(o: Opened): Result<(Payload, seq<Payload>, octets), Fault>
  {
    if o.payloads == [] || o.payloads[0].kind != P_HASH then Err(Malformed)
    else if RawLength(o.payloads[0]) > |o.chain| then Err(Malformed)
    else Ok((o.payloads[0], o.payloads[1..], o.chain[RawLength(o.payloads[0])..]))
  }

  /** The chain an opened message reports always holds its first payload, so
      taking the octets after it cannot fail. */
  lemma HashedInRange(c: Crypto, keys: Option<Keys>, msg: octets, iv: octets)
    requires Open(c, keys, msg, iv).Ok?
    ensures var o := Open(c, keys, msg, iv).value; o.payloads != [] ==> RawLength(o.payloads[0]) <= |o.chain|
  {
    hide Decrypt, HeaderOf;
    var h := HeaderOf(msg).value;
    var (body, _) := BodyOf(c, keys, h, msg[HEADER_LEN..h.length], iv).value;
    ChainHoldsFirst(body, h.next);
  }

  lemma ChainHoldsFirst(b: octets, first: byte)
    requires ParseChain(b, first).Ok?
    ensures var (ps, n) := ParseChain(b, first).value; ps != [] ==> RawLength(ps[0]) <= n
  {
  }

  /** A HASH in front of the payloads it covers: what follows it is their chain. */
  lemma HashedReads(o: Opened, hash: octets, rest: seq<Payload>)
    requires o.payloads == [Payload(P_HASH, hash)] + rest && o.chain == EncodeChain(o.payloads, P_NONE)
    ensures Hashed(o) == Ok((Payload(P_HASH, hash), rest, EncodeChain(rest, P_NONE)))
  {
    ChainTail(o.payloads, P_NONE);
    assert o.payloads[1..] == rest;
  }

  // ---- Certificates.

  const CERT_X509: byte := 4

  function CertPayloads(chain: seq<octets>): (ps: seq<Payload>)
    ensures |ps| == |chain| && forall i :: 0 <= i < |ps| ==> ps[i] == Payload(P_CERT, [CERT_X509] + chain[i])
  {
    seq(|chain|, i requires 0 <= i < |chain| => Payload(P_CERT, [CERT_X509] + chain[i]))
  }

  function CertsOf(ps: seq<Payload>): Result<seq<octets>, Fault>
  {
    if ps == [] then Ok([])
    else if ps[0].kind != P_CERT then CertsOf(ps[1..])
    else if ps[0].body == [] || ps[0].body[0] != CERT_X509 then Err(Malformed)
    else
      match CertsOf(ps[1..])
      case Err(f) => Err(f)
      case Ok(rest) => Ok([ps[0].body[1..]] + rest)
  }

  lemma {:induction false} CertsRead(before: seq<Payload>, chain: seq<octets>, after: seq<Payload>)
    requires forall i :: 0 <= i < |before| ==> before[i].kind != P_CERT
    requires forall i :: 0 <= i < |after| ==> after[i].kind != P_CERT
    ensures CertsOf(before + CertPayloads(chain) + after) == Ok(chain)
    decreases |before| + |chain| + |after|
  {
    var ps := before + CertPayloads(chain) + after;
    if before != [] {
      CertsRead(before[1..], chain, after);
      assert ps[1..] == before[1..] + CertPayloads(chain) + after;
    } else if chain != [] {
      CertsRead([], chain[1..], after);
      assert ps[1..] == [] + CertPayloads(chain[1..]) + after;
      assert ([CERT_X509] + chain[0])[1..] == chain[0];
      assert [chain[0]] + chain[1..] == chain;
    } else if after != [] {
      CertsRead([], [], after[1..]);
      assert ps[1..] == [] + CertPayloads([]) + after[1..];
    }
  }

  // ---- Credentials.

  const ID_IPV4_ADDR: byte := 1
  const ID_IPV6_ADDR: byte := 5
  const ID_DER_ASN1_DN: byte := 9
  const ID_KEY_ID: byte := 11

  datatype Credentials = Credentials(certificates: seq<octets>, key: Option<octets>, roots: seq<octets>)

  /** This end's identification: its certificate's subject, or its address. */
  function OwnId(c: Crypto, creds: Credentials, local: Option<octets>): Result<IdPayload, Fault>
  {
    if creds.certificates != [] then
      match c.subject(creds.certificates[0])
      case None => Err(Config)
      case Some(s) => Ok(IdPayload(ID_DER_ASN1_DN, s))
    else
      match local
      case None => Ok(IdPayload(ID_KEY_ID, [0, 0, 0, 0]))
      case Some(ip) => Ok(IdPayload(if |ip| == 4 then ID_IPV4_ADDR else ID_IPV6_ADDR, ip))
  }

  /** The key of a peer whose certificates chain to the roots and whose
      identification is the leaf's subject. */
  function VerifyPeer(c: Crypto, creds: Credentials, id: IdPayload, certs: seq<octets>): (r: Result<octets, Fault>)
    ensures r.Ok? ==> certs != []
  {
    if certs == [] || !c.trusted(creds.roots, certs) then Err(Auth)
    else
      match c.subject(certs[0])
      case None => Err(Auth)
      case Some(s) => if id != IdPayload(ID_DER_ASN1_DN, s) then Err(Auth) else Ok(c.certKey(certs[0]))
  }

  // ---- Notifications.

  function Informational(c: Crypto, keys: Option<Keys>, ic: cookie, rc: cookie, kind: u16, msgId: u32): octets
  {
    var n := [Payload(P_NOTIFY, NotifyBody(kind))];
    var h := Header(ic, rc, 0, XCHG_INFO, 0, 0, 0);
    match keys
    case None => Message(h, n)
    case Some(k) =>
      var hash := c.prf(k.hash, k.a, U32Octets(msgId) + EncodeChain(n, P_NONE));
      Sealed(c, k, h.(msgId := msgId), [Payload(P_HASH, hash)] + n, Phase2Iv(c, k, msgId)).0
  }

  /** The notification of an informational message; a protected one must carry
      the right hash. */
  function ReadInformational(c: Crypto, keys: Option<Keys>, msg: octets): Result<u16, Fault>
  {
    match HeaderOf(msg)
    case Err(f) => Err(f)
    case Ok(h) =>
      if Encrypted(h) && (keys.None? || keys.value.last.None?) then Err(Malformed)
      else
        match Open(c, keys, msg, if Encrypted(h) then Phase2Iv(c, keys.value, h.msgId) else [])
        case Err(f) => Err(f)
        case Ok(o) =>
          if !Encrypted(h) then NotificationIn(o.payloads)
          else
            match Hashed(o)
            case Err(f) => Err(f)
            case Ok((hp, rest, covered)) =>
              if hp.body != c.prf(keys.value.hash, keys.value.a, U32Octets(h.msgId) + covered) then Err(Auth)
              else NotificationIn(rest)
  }

  function NotificationIn(ps: seq<Payload>): Result<u16, Fault>
  {
    match Find(ps, P_NOTIFY)
    case None => Err(Malformed)
    case Some(p) => NotifyOf(p.body)
  }

  lemma NotifySize(kind: u16)
    ensures var n := [Payload(P_NOTIFY, NotifyBody(kind))]; |EncodeChain(n, P_NONE)| == 12
    ensures NotificationIn([Payload(P_NOTIFY, NotifyBody(kind))]) == Ok(kind)
  {
    hide U16Octets, U32Octets, NotifyBody;
    NotifyRoundTrip(kind);
    NotifyBodyLength(kind);
    var n := [Payload(P_NOTIFY, NotifyBody(kind))];
    assert n[1..] == [];
  }

  lemma NotifyBodyLength(kind: u16)
    ensures |NotifyBody(kind)| == 8
  {
  }

  /** A notification reaches the other end, in the clear before there are keys
      and protected by them afterwards. */
  lemma NotificationReads(c: Crypto, keys: Option<Keys>, ic: cookie, rc: cookie, kind: u16, msgId: u32)
    requires Lawful(c)
    requires keys.Some? ==> keys.value.last.Some? && |c.prf(keys.value.hash, keys.value.a,
               U32Octets(msgId) + EncodeChain([Payload(P_NOTIFY, NotifyBody(kind))], P_NONE))| < 0x8000
    ensures ReadInformational(c, keys, Informational(c, keys, ic, rc, kind, msgId)) == Ok(kind)
  {
    hide Open, Sealed, EncodeChain, NotifyBody, NotificationIn, HeaderOf, Phase2Iv;
    NotifySize(kind);
    var n := [Payload(P_NOTIFY, NotifyBody(kind))];
    NotifyBodyLength(kind);
    var h := Header(ic, rc, 0, XCHG_INFO, 0, 0, 0);
    if keys.None? {
      OpenMessage(c, keys, h, n, []);
    } else {
      var k := keys.value;
      var hash := c.prf(k.hash, k.a, U32Octets(msgId) + EncodeChain(n, P_NONE));
      var ps := [Payload(P_HASH, hash)] + n;
      HashChainLength(hash, n);
      OpenSealed(c, k, k, h.(msgId := msgId), ps, Phase2Iv(c, k, msgId));
      HashedReads(Open(c, keys, Sealed(c, k, h.(msgId := msgId), ps, Phase2Iv(c, k, msgId)).0,
                       Phase2Iv(c, k, msgId)).value, hash, n);
    }
  }

  lemma HashChainLength(hash: octets, rest: seq<Payload>)
    ensures var ps := [Payload(P_HASH, hash)] + rest;
            |EncodeChain(ps, P_NONE)| == 4 + |hash| + |EncodeChain(rest, P_NONE)|
  {
    var ps := [Payload(P_HASH, hash)] + rest;
    assert ps[1..] == rest;
  }
}
