/** A registration between a member and a key server that have a suite in
    common, authenticate each other and authorise each other
    (src/gdoi/member.rs, src/gdoi/server.rs): both ends agree at every message. */
module HonestRun {
  import opened Octets
  import opened Isakmp
  import opened IkeCrypto
  import opened Exchange
  import opened Teks
  import opened Groups
  import opened KeyServer
  import opened KeyServerRuns
  import opened GroupMember
  import opened Registration

  // ---- What the two ends have in common.

  /** The first of the member's offers that the server accepts. */
  function Agreed(m: MemberConfig, scfg: ServerConfig, addr: Addr): Option<Transform>
  {
    Choose(scfg, addr, Offers(m.suites, m.auth))
  }

  ghost predicate Compatible(m: MemberConfig, scfg: ServerConfig, addr: Addr)
  {
    && m.c == scfg.c && Lawful(m.c)
    && Checked(m) && |m.suites| <= MAX_PAYLOADS && Configured(scfg)
    && Agreed(m, scfg, addr).Some?
    && (m.auth == AUTH_PSK ==> scfg.psk(addr) == Some(m.psk))
  }

  lemma AgreedTransform(m: MemberConfig, scfg: ServerConfig, addr: Addr)
    requires Compatible(m, scfg, addr)
    ensures var t := Agreed(m, scfg, addr).value;
            && ValidSuite(t.suite) && t.auth == m.auth && TransformOf(t.body) == Ok(Some(t)) && |t.body| == 36
            && Offered(OwnSa(m), t.body)
            && ParsePhase1Sa(OwnSa(m)) == Ok(Offers(m.suites, m.auth)) && |OwnSa(m)| <= 2576
  {
    hide Phase1SaBody, ParsePhase1Sa, TransformOf, TransformBody, Acceptable, Lawful, Configured;
    var ts := Offers(m.suites, m.auth);
    var t := Agreed(m, scfg, addr).value;
    var i :| 0 <= i < |ts| && ts[i] == t;
    TransformReads(i, m.suites[i], m.auth);
    OffersRead(m.suites, m.auth);
  }

  // ---- Messages 1 and 2.

  lemma OneSendable(kind: byte, body: octets)
    requires kind != P_NONE && |body| <= 0xff00
    ensures Sendable([Payload(kind, body)])
  {
    hide EncodeChain;
    ChainOfEqual([Payload(kind, body)], 4 + |body|);
  }

  lemma FindOnly(kind: byte, body: octets)
    ensures Find([Payload(kind, body)], kind) == Some(Payload(kind, body))
  {
  }

  function ChosenSa(t: Transform): octets { Phase1SaWithDoi(DOI_GDOI, [Payload(P_TRANS, t.body)]) }

  /** The responder after message 1. */
  function AfterSa(m: MemberConfig, scfg: ServerConfig, r: Responder, t: Transform): Responder
  {
    r.(saI := OwnSa(m), suite := t.suite, auth := t.auth, psk := if t.auth == AUTH_PSK then m.psk else r.psk)
  }

  lemma ServerTakesSa(m: MemberConfig, scfg: ServerConfig, addr: Addr, r: Responder, ic: cookie)
    requires Compatible(m, scfg, addr) && r.addr == addr
    ensures var t := Agreed(m, scfg, addr).value;
            MainSa(scfg, r, FirstRequest(m, ic))
            == (AfterSa(m, scfg, r, t), Ok(Message(HeaderFor(r, XCHG_MAIN, 0), [Payload(P_SA, ChosenSa(t))])))
  {
    hide Open, Message, ParsePhase1Sa, Offers, Choose, OwnSa, Phase1SaWithDoi, Lawful, Configured, Checked, Offered, U32Of;
    AgreedTransform(m, scfg, addr);
    var ps := [Payload(P_SA, OwnSa(m))];
    OneSendable(P_SA, OwnSa(m));
    OpenMessage(scfg.c, None, MainHeader(ic, NO_COOKIE), ps, []);
    FindOnly(P_SA, OwnSa(m));
    OwnSaDoi(m);
  }

  lemma OwnSaDoi(m: MemberConfig)
    requires Checked(m) && |m.suites| <= MAX_PAYLOADS
    ensures var b := OwnSa(m); |b| >= 4 && U32Of(b[0], b[1], b[2], b[3]) == DOI_GDOI
  {
    hide EncodeChain, TransformBody, ParsePhase1Sa, TransformsOf, U32Of;
    var ps := OfferPayloads(m.suites, m.auth);
    forall i | 0 <= i < |ps| ensures |ps[i].body| == 36 { TransformReads(i, m.suites[i], m.auth); }
    ChainOfEqual(ps, 40);
    Exchange.SaReads(DOI_GDOI, ps);
  }

  /** The member takes the server's choice, its own first acceptable offer. */
  lemma MemberTakesSa(m: MemberConfig, scfg: ServerConfig, addr: Addr, r: Responder, d: MemberDraw)
    requires Compatible(m, scfg, addr)
    ensures var t := Agreed(m, scfg, addr).value;
            var x := Chosen(d.ic, r.rc, t.suite, d.secret, d.ni);
            var reply := Message(HeaderFor(r, XCHG_MAIN, 0), [Payload(P_SA, ChosenSa(t))]);
            OnSa(m, d.ic, reply, d.secret, d.ni)
            == Ok((x, Message(MainHeader(d.ic, r.rc),
                              [Payload(P_KE, m.c.public(t.suite.group, d.secret)), Payload(P_NONCE, d.ni)])))
  {
    hide Open, Message, ParsePhase1Sa, Offers, Choose, OwnSa, Phase1SaWithDoi, Lawful, Configured, Checked, Offered,
      TransformOf;
    AgreedTransform(m, scfg, addr);
    var t := Agreed(m, scfg, addr).value;
    ChosenReads(DOI_GDOI, t);
    OneSendable(P_SA, ChosenSa(t));
    OpenMessage(m.c, None, HeaderFor(r, XCHG_MAIN, 0), [Payload(P_SA, ChosenSa(t))], []);
    FindOnly(P_SA, ChosenSa(t));
  }

  // ---- Messages 3 and 4.

  /** Both key exchange values are ones the other end can use. */
  ghost predicate SharedOk(m: MemberConfig, group: u16, xi: octets, xr: octets)
  {
    && m.c.shared(group, xi, m.c.public(group, xr)).Some? && m.c.shared(group, xr, m.c.public(group, xi)).Some?
    && |m.c.public(group, xi)| <= 1024 && |m.c.public(group, xr)| <= 1024
  }

  lemma TwoSendable(a: Payload, b: Payload)
    requires a.kind != P_NONE && b.kind != P_NONE && |a.body| + |b.body| <= 0xff00
    ensures Sendable([a, b])
    ensures |EncodeChain([a, b], P_NONE)| == 8 + |a.body| + |b.body|
  {
    hide EncodeChain;
    ChainOfEqual([a], 4 + |a.body|);
    ChainOfEqual([b], 4 + |b.body|);
    ChainLength([a], [b], P_NONE);
    assert [a] + [b] == [a, b];
  }

  lemma FindTwo(a: Payload, b: Payload)
    requires a.kind != b.kind
    ensures Find([a, b], a.kind) == Some(a) && Find([a, b], b.kind) == Some(b)
  {
    assert [a, b][1..] == [b];
    assert Find([b], b.kind) == Some(b);
  }

  /** The responder after message 3: its keys. */
  function AfterKe(c: Crypto, r: Responder, gxi: octets, gxr: octets, skeyid: octets, keys: Keys): Responder
  {
    r.(stage := AwaitingAuth, skeyid := skeyid, keys := Some(keys), gxi := gxi,
       iv := Phase1Iv(c, HashOf(r.suite), gxi, gxr), dh := Some(gxr))
  }

  lemma ServerTakesKe(
    m: MemberConfig, scfg: ServerConfig, r: Responder, group: u16, d: MemberDraw, draw: Draw, skeyid: octets,
    keys: Keys, gxy: octets)
    requires m.c == scfg.c && r.suite.group == group && SharedOk(m, group, d.secret, draw.secret) && |d.ni| == NONCE_LEN
    requires m.c.shared(group, draw.secret, m.c.public(group, d.secret)) == Some(gxy)
    requires skeyid == Skeyid(m.c, HashOf(r.suite), r.auth, r.psk, d.ni, draw.nonce, gxy)
    requires Derive(m.c, r.suite, skeyid, gxy, r.ic, r.rc) == Ok(keys)
    ensures var gxi, gxr := m.c.public(group, d.secret), m.c.public(group, draw.secret);
            var req := Message(MainHeader(d.ic, r.rc), [Payload(P_KE, gxi), Payload(P_NONCE, d.ni)]);
            MainKe(scfg, r, req, draw)
            == (AfterKe(m.c, r, gxi, gxr, skeyid, keys),
                Ok(Message(HeaderFor(r, XCHG_MAIN, 0), [Payload(P_KE, gxr), Payload(P_NONCE, draw.nonce)])))
  {
    hide Open, Message, Derive, Skeyid, Phase1Iv;
    var gxi := m.c.public(group, d.secret);
    var a, b := Payload(P_KE, gxi), Payload(P_NONCE, d.ni);
    TwoSendable(a, b);
    OpenMessage(scfg.c, None, MainHeader(d.ic, r.rc), [a, b], []);
    FindTwo(a, b);
  }

  lemma MemberDerives(m: MemberConfig, r: Responder, x: Chosen, xr: octets, nr: octets, skeyid: octets, keys: Keys, gxy: octets)
    requires Lawful(m.c) && SharedOk(m, x.suite.group, x.secret, xr)
    requires r.suite == x.suite && r.auth == m.auth && (m.auth == AUTH_PSK ==> r.psk == m.psk) && r.ic == x.ic && r.rc == x.rc
    requires m.c.shared(x.suite.group, xr, m.c.public(x.suite.group, x.secret)) == Some(gxy)
    requires skeyid == Skeyid(m.c, HashOf(r.suite), r.auth, r.psk, x.ni, nr, gxy)
    requires Derive(m.c, r.suite, skeyid, gxy, r.ic, r.rc) == Ok(keys)
    ensures var gxi, gxr := m.c.public(x.suite.group, x.secret), m.c.public(x.suite.group, xr);
            DeriveMember(m, x, gxr, nr)
            == Ok(Keyed(x.ic, x.rc, gxi, gxr, skeyid, keys, Phase1Iv(m.c, HashOf(x.suite), gxi, gxr)))
  {
    hide Derive, Phase1Iv;
  }

  /** The member derives the keys, and the IV, that the server derived. */
  lemma MemberTakesKe(
    m: MemberConfig, r: Responder, x: Chosen, draw: Draw, skeyid: octets, keys: Keys, gxy: octets)
    requires Lawful(m.c) && Checked(m) && SharedOk(m, x.suite.group, x.secret, draw.secret) && |draw.nonce| == NONCE_LEN
    requires r.suite == x.suite && r.auth == m.auth && (m.auth == AUTH_PSK ==> r.psk == m.psk) && r.ic == x.ic && r.rc == x.rc
    requires m.c.shared(x.suite.group, draw.secret, m.c.public(x.suite.group, x.secret)) == Some(gxy)
    requires skeyid == Skeyid(m.c, HashOf(r.suite), r.auth, r.psk, x.ni, draw.nonce, gxy)
    requires Derive(m.c, r.suite, skeyid, gxy, r.ic, r.rc) == Ok(keys)
    ensures var gxi, gxr := m.c.public(x.suite.group, x.secret), m.c.public(x.suite.group, draw.secret);
            var k := Keyed(x.ic, x.rc, gxi, gxr, skeyid, keys, Phase1Iv(m.c, HashOf(x.suite), gxi, gxr));
            var reply := Message(HeaderFor(r, XCHG_MAIN, 0), [Payload(P_KE, gxr), Payload(P_NONCE, draw.nonce)]);
            && (MemberProof(m, k).Ok? ==>
                  var (msg, next) := Sealed(m.c, keys, MainHeader(x.ic, x.rc), MemberProof(m, k).value, k.iv);
                  OnKe(m, x, reply) == Ok((k, msg, next)))
  {
    hide Open, Message, Derive, Skeyid, Phase1Iv, MemberProof, Sealed, DeriveMember, Lawful, Checked;
    MemberDerives(m, r, x, draw.secret, draw.nonce, skeyid, keys, gxy);
    var gxr := m.c.public(x.suite.group, draw.secret);
    var a, b := Payload(P_KE, gxr), Payload(P_NONCE, draw.nonce);
    TwoSendable(a, b);
    OpenMessage(m.c, None, HeaderFor(r, XCHG_MAIN, 0), [a, b], []);
    FindTwo(a, b);
  }

  // ---- Messages 5 and 6.

  /** What `key` signs, the key of `cert` verifies. */
  ghost predicate Vouches(c: Crypto, auth: u16, key: octets, cert: octets)
  {
    forall h: octets ::
      && c.sign(auth, key, h).Some? && |c.sign(auth, key, h).value| <= 1024
      && c.verify(auth, c.certKey(cert), h, c.sign(auth, key, h).value)
  }

  predicate CertsFit(certs: seq<octets>)
  {
    && |certs| <= 62 && (forall i :: 0 <= i < |certs| ==> |certs[i]| <= 0xf000)
    && |EncodeChain(CertPayloads(certs), P_NONE)| <= 0xf000
  }

  /** Either end's identification, and credentials the other end accepts. */
  ghost predicate Trusting(m: MemberConfig, scfg: ServerConfig, idm: IdPayload, ids: IdPayload)
  {
    && OwnId(m.c, m.creds, m.local) == Ok(idm) && |idm.data| <= 1024
    && OwnId(scfg.c, scfg.creds, scfg.local) == Ok(ids) && |ids.data| <= 1024
    && (m.auth != AUTH_PSK ==>
          && scfg.creds.key.Some? && scfg.creds.certificates != []
          && CertsFit(m.creds.certificates) && CertsFit(scfg.creds.certificates)
          && m.creds.key.Some? && m.creds.certificates != []
          && Vouches(m.c, m.auth, m.creds.key.value, m.creds.certificates[0])
          && Vouches(m.c, m.auth, scfg.creds.key.value, scfg.creds.certificates[0])
          && m.c.trusted(scfg.creds.roots, m.creds.certificates)
          && m.c.trusted(m.creds.roots, scfg.creds.certificates))
  }

  function PskProof(id: IdPayload, hash: octets): seq<Payload> { [Payload(P_ID, IdBody(id)), Payload(P_HASH, hash)] }

  function CertProof(id: IdPayload, certs: seq<octets>, sig: octets): seq<Payload>
  {
    [Payload(P_ID, IdBody(id))] + CertPayloads(certs) + [Payload(P_SIG, sig)]
  }

  lemma PskProofReads(id: IdPayload, hash: octets)
    requires |id.data| <= 1024 && |hash| <= 64
    ensures var ps := PskProof(id, hash);
            && Sendable(ps) && Find(ps, P_ID) == Some(Payload(P_ID, IdBody(id))) && IdOf(IdBody(id)) == Ok(id)
            && Find(ps, P_HASH) == Some(Payload(P_HASH, hash))
  {
    hide EncodeChain, Sendable;
    IdRoundTrip(id);
    var a, b := Payload(P_ID, IdBody(id)), Payload(P_HASH, hash);
    TwoSendable(a, b);
    FindTwo(a, b);
  }

  lemma {:induction false} FindAfter(before: seq<Payload>, p: Payload)
    requires forall i :: 0 <= i < |before| ==> before[i].kind != p.kind
    ensures Find(before + [p], p.kind) == Some(p)
  {
    if before != [] {
      FindAfter(before[1..], p);
      assert (before + [p])[1..] == before[1..] + [p];
    } else {
      assert before + [p] == [p];
    }
  }

  lemma CertProofReads(id: IdPayload, certs: seq<octets>, sig: octets)
    requires |id.data| <= 1024 && |sig| <= 1024 && CertsFit(certs)
    ensures var ps := CertProof(id, certs, sig);
            && Sendable(ps) && Find(ps, P_ID) == Some(Payload(P_ID, IdBody(id))) && IdOf(IdBody(id)) == Ok(id)
            && CertsOf(ps) == Ok(certs) && Find(ps, P_SIG) == Some(Payload(P_SIG, sig))
  {
    hide CertsOf;
    IdRoundTrip(id);
    var first, last := Payload(P_ID, IdBody(id)), Payload(P_SIG, sig);
    var ps := CertProof(id, certs, sig);
    CertsRead([first], certs, [last]);
    FindAfter([first] + CertPayloads(certs), last);
    CertProofSendable(id, certs, sig);
  }

  lemma CertProofSendable(id: IdPayload, certs: seq<octets>, sig: octets)
    requires |id.data| <= 1024 && |sig| <= 1024 && CertsFit(certs)
    ensures Sendable(CertProof(id, certs, sig))
  {
    hide EncodeChain;
    var first, last := Payload(P_ID, IdBody(id)), Payload(P_SIG, sig);
    ChainLength([first] + CertPayloads(certs), [last], P_NONE);
    ChainLength([first], CertPayloads(certs), P_NONE);
    ChainOfEqual([first], 4 + |first.body|);
    ChainOfEqual([last], 4 + |last.body|);
  }

  /** A responder and a member that have come to the same keys. */
  ghost predicate Mirrors(m: MemberConfig, r: Responder, k: Keyed)
  {
    && r.keys == Some(k.keys) && r.dh == Some(k.gxr) && r.gxi == k.gxi && r.skeyid == k.skeyid
    && r.ic == k.ic && r.rc == k.rc && r.saI == OwnSa(m) && r.auth == m.auth && r.iv == k.iv
  }

  lemma HashesAgree(m: MemberConfig, scfg: ServerConfig, r: Responder, k: Keyed, id: IdPayload)
    requires m.c == scfg.c && Mirrors(m, r, k)
    ensures HashI(scfg, r, id) == MemberHash(m, k, id) && HashR(scfg, r, id) == ServerHash(m, k, id)
  {
    hide OwnSa;
  }

  function MemberPeer(m: MemberConfig, addr: Addr, id: IdPayload): Peer
    requires m.auth != AUTH_PSK ==> m.creds.certificates != []
  {
    Peer(addr, id.kind, id.data, if m.auth == AUTH_PSK then None else Some(m.creds.certificates[0]))
  }

  function ServerPeer(m: MemberConfig, scfg: ServerConfig, id: IdPayload): Peer
    requires m.auth != AUTH_PSK ==> scfg.creds.certificates != []
  {
    Peer(m.server, id.kind, id.data, if m.auth == AUTH_PSK then None else Some(scfg.creds.certificates[0]))
  }

  /** The member's proof exists, fits a message, and convinces the server. */
  lemma ServerConvinced(m: MemberConfig, scfg: ServerConfig, r: Responder, k: Keyed, idm: IdPayload, ids: IdPayload)
    requires m.c == scfg.c && Checked(m) && Trusting(m, scfg, idm, ids) && Mirrors(m, r, k)
    ensures MemberProof(m, k).Ok? && Sendable(MemberProof(m, k).value)
    ensures CheckMember(scfg, r, MemberProof(m, k).value) == Ok(MemberPeer(m, r.addr, idm))
  {
    hide OwnSa, Sendable, CertsOf, HashI, MemberHash, IdOf, IdBody;
    HashesAgree(m, scfg, r, k, idm);
    var hash := MemberHash(m, k, idm);
    if m.auth == AUTH_PSK {
      MacShort(m, k, idm);
      PskProofReads(idm, hash);
      assert MemberProof(m, k) == Ok(PskProof(idm, hash));
    } else {
      var sig := m.c.sign(m.auth, m.creds.key.value, hash).value;
      CertProofReads(idm, m.creds.certificates, sig);
      assert MemberProof(m, k) == Ok(CertProof(idm, m.creds.certificates, sig));
    }
  }

  lemma MacShort(m: MemberConfig, k: Keyed, id: IdPayload)
    ensures |MemberHash(m, k, id)| <= 64 && |ServerHash(m, k, id)| <= 64
  {
    hide OwnSa, IdBody;
  }

  /** The server's proof exists, fits a message, and convinces the member. */
  lemma MemberConvinced(m: MemberConfig, scfg: ServerConfig, r: Responder, k: Keyed, idm: IdPayload, ids: IdPayload)
    requires m.c == scfg.c && Checked(m) && Trusting(m, scfg, idm, ids) && Mirrors(m, r, k)
    ensures ServerProof(scfg, r).Ok? && Sendable(ServerProof(scfg, r).value)
    ensures CheckServer(m, k, ServerProof(scfg, r).value) == Ok(ServerPeer(m, scfg, ids))
  {
    hide OwnSa, Sendable, CertsOf, HashR, ServerHash, IdOf, IdBody;
    HashesAgree(m, scfg, r, k, ids);
    var hash := ServerHash(m, k, ids);
    if m.auth == AUTH_PSK {
      MacShort(m, k, ids);
      PskProofReads(ids, hash);
      assert ServerProof(scfg, r) == Ok(PskProof(ids, hash));
    } else {
      var sig := m.c.sign(m.auth, scfg.creds.key.value, hash).value;
      CertProofReads(ids, scfg.creds.certificates, sig);
      assert ServerProof(scfg, r) == Ok(CertProof(ids, scfg.creds.certificates, sig));
    }
  }

  /** Message 6 and the block it ends with. */
  function AuthReply(scfg: ServerConfig, r: Responder, k: Keyed, iv: block): (octets, block)
    requires r.keys.Some? && r.dh.Some? && (r.auth != AUTH_PSK ==> scfg.creds.key.Some?) && ServerProof(scfg, r).Ok?
  {
    Sealed(scfg.c, k.keys, HeaderFor(r, XCHG_MAIN, 0), ServerProof(scfg, r).value, iv)
  }

  function AuthRequest(m: MemberConfig, k: Keyed): (octets, block)
    requires (m.auth != AUTH_PSK ==> m.creds.key.Some?) && MemberProof(m, k).Ok?
  {
    Sealed(m.c, k.keys, MainHeader(k.ic, k.rc), MemberProof(m, k).value, k.iv)
  }

  lemma ServerTakesAuth(m: MemberConfig, scfg: ServerConfig, r: Responder, k: Keyed, idm: IdPayload, ids: IdPayload)
    requires m.c == scfg.c && Lawful(m.c) && Checked(m) && Configured(scfg) && Negotiated(scfg, r)
    requires Trusting(m, scfg, idm, ids) && Mirrors(m, r, k)
    ensures MemberProof(m, k).Ok? && ServerProof(scfg, r).Ok?
    ensures var (req, iv) := AuthRequest(m, k);
            var (reply, last) := AuthReply(scfg, r, k, iv);
            MainAuth(scfg, r, req)
            == (r.(stage := Established, keys := Some(k.keys.(last := Some(last))), peer := Some(MemberPeer(m, r.addr, idm))),
                Ok(reply))
  {
    hide Open, Sealed, MemberProof, ServerProof, CheckMember, Lawful, Configured, Negotiated, Sendable, EncodeChain,
      PaddedLength;
    ServerConvinced(m, scfg, r, k, idm, ids);
    MemberConvinced(m, scfg, r, k, idm, ids);
    OpenSealed(m.c, k.keys, k.keys, MainHeader(k.ic, k.rc), MemberProof(m, k).value, k.iv);
  }

  lemma MemberTakesAuth(m: MemberConfig, scfg: ServerConfig, r: Responder, k: Keyed, idm: IdPayload, ids: IdPayload)
    requires m.c == scfg.c && Lawful(m.c) && Checked(m) && Trusting(m, scfg, idm, ids) && Mirrors(m, r, k)
    requires m.authorizeServer(ServerPeer(m, scfg, ids))
    ensures MemberProof(m, k).Ok? && ServerProof(scfg, r).Ok?
    ensures var (_, iv) := AuthRequest(m, k);
            var (reply, last) := AuthReply(scfg, r, k, iv);
            OnAuth(m, k, iv, reply) == Ok(Secured(k.ic, k.rc, k.keys.(last := Some(last)), ServerPeer(m, scfg, ids)))
  {
    hide Open, Sealed, MemberProof, ServerProof, CheckServer, Lawful, Sendable, EncodeChain, PaddedLength;
    ServerConvinced(m, scfg, r, k, idm, ids);
    MemberConvinced(m, scfg, r, k, idm, ids);
    var (_, iv) := AuthRequest(m, k);
    OpenSealed(m.c, k.keys, k.keys, HeaderFor(r, XCHG_MAIN, 0), ServerProof(scfg, r).value, iv);
  }

  // ---- GROUPKEY-PULL.

  /** A group the member can name in a message, and TEKs that fit the replies. */
  ghost predicate Deliverable(g: GroupId, teks: seq<Tek>)
  {
    && GroupIdPayload(g).Ok? && NamedOnce(g) && |GroupIdPayload(g).value.data| <= 0xf000
    && Holdable(teks) && SaBody(teks).Ok? && |SaBody(teks).value| <= 0xf000
  }

  lemma HashSendable(hash: octets, rest: seq<Payload>)
    requires 32 <= |hash| <= 64 && Encodable(rest) && |rest| <= 2 && |EncodeChain(rest, P_NONE)| <= 0xf800
    ensures Sendable([Payload(P_HASH, hash)] + rest)
  {
    hide EncodeChain;
    HashChainLength(hash, rest);
  }

  function PullAsk(g: GroupId, ni: octets): seq<Payload>
    requires GroupIdPayload(g).Ok?
  {
    [Payload(P_NONCE, ni), Payload(P_ID, IdBody(GroupIdPayload(g).value))]
  }

  lemma AskReads(g: GroupId, ni: octets)
    requires GroupIdPayload(g).Ok? && NamedOnce(g) && |GroupIdPayload(g).value.data| <= 0xf000 && |ni| == NONCE_LEN
    ensures PullRequest(PullAsk(g, ni)) == Ok((ni, g))
    ensures Encodable(PullAsk(g, ni)) && |EncodeChain(PullAsk(g, ni), P_NONE)| == 44 + |GroupIdPayload(g).value.data|
  {
    hide EncodeChain, GroupIdOf, GroupIdPayload, NamedOnce, Sendable;
    var id := GroupIdPayload(g).value;
    var a, b := Payload(P_NONCE, ni), Payload(P_ID, IdBody(id));
    GroupIdRoundTrip(g);
    IdRoundTrip(id);
    FindTwo(a, b);
    TwoSendable(a, b);
  }

  /** A member past phase 1 and the responder it is established with. */
  ghost predicate Paired(x: Secured, r: Responder)
  {
    r.stage == Established && r.keys == Some(x.keys) && x.keys.last.Some? && r.ic == x.ic && r.rc == x.rc && r.peer.Some?
  }

  function PolicyPayloads(teks: seq<Tek>, nr: octets): seq<Payload>
    requires SaBody(teks).Ok?
  {
    [Payload(P_NONCE, nr), Payload(P_SA, SaBody(teks).value)]
  }

  lemma MacIsShort(c: Crypto, k: Keys, mid: u32, data: octets)
    ensures 32 <= |PullMac(c, k, mid, data)| <= 64
    ensures Lawful(c) ==> |PullMac(c, k, mid, data)| == MacLength(k.hash)
  {
  }

  /** The reply to message 1, and the IV after it. */
  function PolicyReply(c: Crypto, x: Secured, mid: u32, ni: octets, nr: octets, teks: seq<Tek>, iv: block): (octets, block)
    requires SaBody(teks).Ok?
  {
    var out := PolicyPayloads(teks, nr);
    var hash := PullMac(c, x.keys, mid, ni + EncodeChain(out, P_NONE));
    Sealed(c, x.keys, PullHeader(x, mid), [Payload(P_HASH, hash)] + out, iv)
  }

  function Asked(c: Crypto, x: Secured, g: GroupId, mid: u32, ni: octets): (octets, block)
    requires GroupIdPayload(g).Ok?
  {
    var rest := PullAsk(g, ni);
    var hash := PullMac(c, x.keys, mid, EncodeChain(rest, P_NONE));
    Sealed(c, x.keys, PullHeader(x, mid), [Payload(P_HASH, hash)] + rest, Phase2Iv(c, x.keys, mid))
  }

  lemma ServerOpensAsk(m: MemberConfig, x: Secured, g: GroupId, mid: u32, ni: octets)
    requires Lawful(m.c) && GroupIdPayload(g).Ok? && NamedOnce(g) && |GroupIdPayload(g).value.data| <= 0xf000
    requires |ni| == NONCE_LEN
    ensures PullRequestMessage(m, x, g, mid, ni) == Ok(Asked(m.c, x, g, mid, ni))
    ensures var (msg, next) := Asked(m.c, x, g, mid, ni);
            var res := Open(m.c, Some(x.keys), msg, Phase2Iv(m.c, x.keys, mid));
            var rest := PullAsk(g, ni);
            && res.Ok? && res.value.nextIv == next
            && Hashed(res.value) == Ok((Payload(P_HASH, PullMac(m.c, x.keys, mid, EncodeChain(rest, P_NONE))), rest,
                                        EncodeChain(rest, P_NONE)))
  {
    hide Open, Sealed, EncodeChain, Phase2Iv, Lawful, PullMac, Hashed, GroupIdPayload, NamedOnce, Sendable;
    var rest := PullAsk(g, ni);
    AskReads(g, ni);
    var hash := PullMac(m.c, x.keys, mid, EncodeChain(rest, P_NONE));
    MacIsShort(m.c, x.keys, mid, EncodeChain(rest, P_NONE));
    HashSendable(hash, rest);
    var ps := [Payload(P_HASH, hash)] + rest;
    OpenSealed(m.c, x.keys, x.keys, PullHeader(x, mid), ps, Phase2Iv(m.c, x.keys, mid));
    HashedReads(Open(m.c, Some(x.keys), Asked(m.c, x, g, mid, ni).0, Phase2Iv(m.c, x.keys, mid)).value, hash, rest);
  }

  /** The pull's state at the server after message 1. */
  function AfterAsk(p: PullState, g: GroupId, ni: octets, nr: octets, teks: seq<Tek>, msg: octets, reply: octets, iv: block): PullState
  {
    PullState(iv, ni, nr, Some(g), teks, p.done, msg, reply)
  }

  lemma ServerTakesAsk(
    m: MemberConfig, scfg: ServerConfig, r: Responder, x: Secured, g: GroupId, mid: u32, ni: octets, groups: GroupTable,
    draw: Draw)
    requires m.c == scfg.c && Lawful(m.c) && Paired(x, r) && g in groups && scfg.authorize(r.peer.value, g)
    requires Deliverable(g, Snapshot(groups[g], draw.at)) && |ni| == NONCE_LEN
    ensures var teks := Snapshot(groups[g], draw.at);
            var (msg, iv) := Asked(m.c, x, g, mid, ni);
            var (reply, next) := PolicyReply(m.c, x, mid, ni, draw.nonce, teks, iv);
            var p := FreshPull(scfg.c, x.keys, mid);
            forall h: Header :: h.msgId == mid ==>
              PullStep(scfg, r, p, h, msg, groups, draw)
              == Pulled(AfterAsk(p, g, ni, draw.nonce, teks, msg, reply, next), Ok(reply),
                        groups[g := Live(groups[g], draw.at)],
                        [Hash1Verified(r.session, mid), Authorised(r.session, mid, r.peer.value, g)])
  {
    hide Open, Sealed, EncodeChain, Phase2Iv, Lawful, PullMac, Hashed, GroupIdPayload, NamedOnce, Snapshot, Live, SaBody,
      PullRequest, Holdable;
    ServerOpensAsk(m, x, g, mid, ni);
    AskReads(g, ni);
  }

  lemma MemberTakesPolicy(
    m: MemberConfig, x: Secured, g: GroupId, mid: u32, ni: octets, nr: octets, teks: seq<Tek>, iv: block)
    requires Lawful(m.c) && Deliverable(g, teks) && |nr| == NONCE_LEN
    ensures var (reply, next) := PolicyReply(m.c, x, mid, ni, nr, teks, iv);
            var hash := PullMac(m.c, x.keys, mid, ni + nr);
            var (msg, last) := Sealed(m.c, x.keys, PullHeader(x, mid), [Payload(P_HASH, hash)], next);
            OnPolicy(m, x, mid, ni, iv, reply) == Ok((Informed(nr, Policies(teks)), msg, last))
  {
    hide Open, Sealed, EncodeChain, Lawful, PullMac, Hashed, GroupIdPayload, NamedOnce, SaBody, SaOf, Policies, Sendable;
    var rest := PolicyPayloads(teks, nr);
    PolicyReads(g, teks, nr);
    var hash := PullMac(m.c, x.keys, mid, ni + EncodeChain(rest, P_NONE));
    MacIsShort(m.c, x.keys, mid, ni + EncodeChain(rest, P_NONE));
    HashSendable(hash, rest);
    OpenSealed(m.c, x.keys, x.keys, PullHeader(x, mid), [Payload(P_HASH, hash)] + rest, iv);
    HashedReads(Open(m.c, Some(x.keys), PolicyReply(m.c, x, mid, ni, nr, teks, iv).0, iv).value, hash, rest);
  }

  lemma PolicyReads(g: GroupId, teks: seq<Tek>, nr: octets)
    requires Deliverable(g, teks) && |nr| == NONCE_LEN
    ensures var rest := PolicyPayloads(teks, nr);
            && Encodable(rest) && |EncodeChain(rest, P_NONE)| <= 0xf800
            && Find(rest, P_NONCE) == Some(Payload(P_NONCE, nr))
            && Find(rest, P_SA) == Some(Payload(P_SA, SaBody(teks).value))
            && SaOf(SaBody(teks).value) == Ok(Policies(teks)) && Policies(teks) != []
  {
    hide EncodeChain, GroupIdPayload, NamedOnce, SaBody, SaOf, Sendable;
    Teks.SaReads(teks);
    var a, b := Payload(P_NONCE, nr), Payload(P_SA, SaBody(teks).value);
    FindTwo(a, b);
    TwoSendable(a, b);
  }

  lemma {:induction false} PacketsShort(teks: seq<Tek>)
    requires AllAllowed(teks)
    ensures |Packets(teks)| <= 89 * |teks|
  {
    hide CheckPolicy, EncodeAttrs, KeyAttrs;
    if teks != [] {
      PacketsShort(teks[1..]);
      KeyAttrsFit(teks[0]);
    }
  }

  lemma KdShort(teks: seq<Tek>)
    requires Holdable(teks)
    ensures |KdBody(teks)| <= 0x2000
  {
    hide Packets, CheckPolicy, Writable;
    PacketsShort(teks);
  }

  /** Message 3: HASH(3) verifies, and the keys and the registration follow. */
  lemma ServerTakesConfirm(
    m: MemberConfig, scfg: ServerConfig, r: Responder, x: Secured, g: GroupId, mid: u32, p: PullState, groups: GroupTable,
    draw: Draw)
    requires m.c == scfg.c && Lawful(m.c) && Paired(x, r) && p.ni != [] && p.group == Some(g)
    ensures var hash := PullMac(m.c, x.keys, mid, p.ni + p.nr);
            var (msg, iv) := Sealed(m.c, x.keys, PullHeader(x, mid), [Payload(P_HASH, hash)], p.iv);
            var reply := KeysReply(m.c, x, mid, p.ni, p.nr, p.teks, iv);
            forall h: Header :: h.msgId == mid ==>
              PullStep(scfg, r, p, h, msg, groups, draw)
              == Pulled(p.(done := true, lastReq := msg, lastResp := reply), Ok(reply), groups,
                        [Hash3Verified(r.session, mid), Registered(r.session, mid, r.peer.value, g, p.teks)])
  {
    hide Open, Sealed, Lawful, PullMac, Hashed, KdBody, Sendable;
    var hash := PullMac(m.c, x.keys, mid, p.ni + p.nr);
    MacIsShort(m.c, x.keys, mid, p.ni + p.nr);
    OneSendable(P_HASH, hash);
    var ps := [Payload(P_HASH, hash)];
    OpenSealed(m.c, x.keys, x.keys, PullHeader(x, mid), ps, p.iv);
    var msg := Sealed(m.c, x.keys, PullHeader(x, mid), ps, p.iv).0;
    assert ps + [] == ps;
    HashedReads(Open(m.c, Some(x.keys), msg, p.iv).value, hash, []);
    assert p.ni + p.nr + [] == p.ni + p.nr;
    assert [Hash3Verified(r.session, mid)] + [Registered(r.session, mid, r.peer.value, g, p.teks)]
        == [Hash3Verified(r.session, mid), Registered(r.session, mid, r.peer.value, g, p.teks)];
  }

  function KeysReply(c: Crypto, x: Secured, mid: u32, ni: octets, nr: octets, teks: seq<Tek>, iv: block): octets
  {
    var out := [Payload(P_KD, KdBody(teks))];
    var hash := PullMac(c, x.keys, mid, ni + nr + EncodeChain(out, P_NONE));
    Sealed(c, x.keys, PullHeader(x, mid), [Payload(P_HASH, hash)] + out, iv).0
  }

  /** The member ends with the TEKs of the server's snapshot, rounded. */
  lemma MemberTakesKeys(m: MemberConfig, x: Secured, mid: u32, ni: octets, nr: octets, teks: seq<Tek>, iv: block)
    requires Lawful(m.c) && Holdable(teks)
    ensures OnKeys(m, x, mid, ni, Informed(nr, Policies(teks)), iv, KeysReply(m.c, x, mid, ni, nr, teks, iv))
         == Ok(RoundedAll(teks))
  {
    hide Open, Sealed, EncodeChain, Lawful, PullMac, Hashed, KdBody, KdOf, SaBody, SaOf, Join, Holdable, Sendable, Policies,
      RoundedAll;
    var kd := KdBody(teks);
    KdShort(teks);
    var out := [Payload(P_KD, kd)];
    OneSendable(P_KD, kd);
    OneChain(P_KD, kd);
    FindOnly(P_KD, kd);
    var hash := PullMac(m.c, x.keys, mid, ni + nr + EncodeChain(out, P_NONE));
    MacIsShort(m.c, x.keys, mid, ni + nr + EncodeChain(out, P_NONE));
    HashSendable(hash, out);
    OpenSealed(m.c, x.keys, x.keys, PullHeader(x, mid), [Payload(P_HASH, hash)] + out, iv);
    HashedReads(Open(m.c, Some(x.keys), KeysReply(m.c, x, mid, ni, nr, teks, iv), iv).value, hash, out);
    JoinRestores(teks);
    PoliciesOf(teks);
  }

  lemma OneChain(kind: byte, body: octets)
    ensures |EncodeChain([Payload(kind, body)], P_NONE)| == 4 + |body|
  {
    hide EncodeChain;
    ChainOfEqual([Payload(kind, body)], 4 + |body|);
  }

  lemma PoliciesOf(teks: seq<Tek>)
    requires Holdable(teks)
    ensures SaBody(teks).Ok? && SaOf(SaBody(teks).value) == Ok(Policies(teks))
  {
    Teks.SaReads(teks);
  }
}
