/** A member, a key server and a group that meet every condition of an honest
    registration: the conditions can be met together. */
module HonestExample {
  import opened Octets
  import opened Ber
  import opened Decoding
  import opened Elements
  import opened Oids
  import opened Isakmp
  import opened IkeCrypto
  import opened Exchange
  import opened Teks
  import opened Groups
  import opened KeyServer
  import opened GroupMember
  import opened Registration
  import opened HonestRun
  import opened HonestRegistration

  function Blank(h: HashAlg): (m: mac)
    ensures |m| == MacLength(h)
  {
    seq(MacLength(h), i => 0)
  }

  const NONCE: octets := Blank(Sha256)

  const COOKIE: cookie := [1, 0, 0, 0, 0, 0, 0, 0]

  const PSK: octets := [1]

  const TEK := Tek(1, [1, 3], [], 2, ENC_NONE, 0, 0, None, [], Blank(Sha256))

  const GROUP := GroupId(7, None, [])

  const CREDENTIALS := Credentials([], None, [])

  function Toy(): Crypto
  {
    Crypto((h, k, d) => Blank(h), (h, d) => Blank(h), (k, b) => b, (k, b) => b, (g, x) => [], (g, x, y) => Some([]),
           (m, k, d) => Some([]), (m, k, d, s) => true, x => None, x => [], (r, x) => true)
  }

  function ToyMember(): MemberConfig
  {
    MemberConfig(Toy(), CREDENTIALS, PSK, AUTH_PSK, DEFAULT_SUITES, p => true, None, 0)
  }

  function ToyServer(): ServerConfig
  {
    ServerConfig(Toy(), CREDENTIALS, 0, a => Some(PSK), (p, g) => true, DEFAULT_SUITES, None)
  }

  const SERVICE := Service(0, Draw(COOKIE, [], NONCE, 1, 0), map[])

  lemma DerShort()
    ensures |OidDer([1, 3])| <= 16 && ValidOid([1, 3])
  {
    hide Base128, LengthOctets, TagOctets;
    var o: Oid := [1, 3];
    var v := FirstNumber(o);
    assert o[2..] == [];
    var vs: seq<u32> := [v];
    assert vs + [] == vs && vs[1..] == [];
    Base128Length(v);
    assert ArcOctets(vs) == Base128(v) + ArcOctets([]);
    TagSizeExact(TAG_OID);
    LengthSizeExact(|OidOctets(o)|);
  }

  lemma TekFits()
    ensures CheckPolicy(TEK) && RoomFor(TEK) && OidAndSelector(TEK.oid, TEK.selector).Ok?
    ensures |OidAndSelector(TEK.oid, TEK.selector).value| <= 19
  {
    hide OidDer, ValidOid;
    DerShort();
  }

  lemma SnapshotIsOne(now: nat)
    ensures Snapshot([GroupTek(TEK, 0, None)], now) == [TEK]
  {
    hide CheckPolicy;
    var x := GroupTek(TEK, 0, None);
    assert [x][1..] == [];
    assert Live([x], now) == [x];
    assert AllRemaining([x], now) == [TEK];
    assert [TEK][1..] == [];
    assert SortByDelay([]) == [];
    assert SortByDelay([TEK]) == [TEK];
  }

  lemma PolicyFits()
    ensures Holdable([TEK]) && SaBody([TEK]).Ok? && |SaBody([TEK]).value| <= 0x1000
  {
    hide SatBody, RoomFor, CheckPolicy, OidAndSelector, ValidOid, U32Octets, U16Octets, EncodeChain;
    TekFits();
    DerShort();
    SatBodyFits(TEK);
    var teks := [TEK];
    assert teks[1..] == [];
    var sats := [Payload(P_SAT, SatBody(TEK).value)];
    assert Sats([]) == Ok([]) && sats + [] == sats;
    assert Sats(teks) == Ok(sats);
    ChainOfEqual(sats, 4 + |SatBody(TEK).value|);
  }

  lemma HonestExists()
    ensures var s := ServerState(map[GROUP := [GroupTek(TEK, 0, None)]], map[], 0, []);
            var d := MemberDraw(COOKIE, [], NONCE, 1, NONCE);
            var id := IdPayload(11, [0, 0, 0, 0]);
            Honest(ToyMember(), ToyServer(), s, 0, GROUP, d, id, id, [SERVICE, SERVICE, SERVICE, SERVICE, SERVICE])
  {
    hide Snapshot, Holdable, SaBody, Offers;
    SnapshotIsOne(0);
    PolicyFits();
    ToyAgree();
  }

  lemma ToyAgree()
    ensures Compatible(ToyMember(), ToyServer(), 0)
  {
    hide TransformBody;
    var ts := Offers(DEFAULT_SUITES, AUTH_PSK);
    assert ts[0].suite == DEFAULT_SUITES[0] && ts[0].auth == AUTH_PSK;
    assert Acceptable(ToyServer(), 0, ts[0]);
    assert Choose(ToyServer(), 0, ts) == Some(ts[0]);
  }
}
