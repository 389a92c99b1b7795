/** Group identities and traffic encryption keys (src/gdoi/tek.rs): the SA, SA
    TEK and Key Download payloads (RFC 6407, RFC 8052). Durations are in
    nanoseconds. */
module Teks {
  import opened Octets
  import opened Ber
  import opened Decoding
  import opened Elements
  import opened Oids
  import opened Isakmp

  const SECOND: nat := 1_000_000_000

  const ID_KEY_ID: byte := 11
  const ID_OID: byte := 13
  const PROTO_IEC61850: byte := 3
  const KD_TYPE_TEK: byte := 1

  // ---- Object identifiers with a selector.

  function OidDer(oid: Oid): octets { Encode(Primitive(TAG_OID, OidOctets(oid))) }

  function OidAndSelector(oid: Oid, sel: octets): Result<octets, Fault>
  {
    var der := OidDer(oid);
    if |der| > 255 || |sel| > 0xffff then Err(Config)
    else Ok([|der| as byte] + der + U16Octets(|sel|) + sel)
  }

  /** The object identifier that DER octets hold, and nothing after it. */
  function OidIn(der: octets): Option<Oid>
  {
    match ExpectAt(der, 0, TAG_OID)
    case Bad(_) => None
    case Got(c, next) =>
      match OidOf(c)
      case Err(_) => None
      case Ok(oid) => if next < |der| then None else Some(oid)
  }

  /** The identifier, the selector and what follows them. */
  function OidAndSelectorOf(b: octets): Result<(Oid, octets, octets), Fault>
  {
    if b == [] || b[0] as int + 3 > |b| then Err(Malformed)
    else
      var n := b[0] as int;
      match OidIn(b[1..1 + n])
      case None => Err(Malformed)
      case Some(oid) =>
        var rest := b[1 + n..];
        var sl: nat := U16Of(rest[0], rest[1]);
        if sl > |rest| - 2 then Err(Malformed) else Ok((oid, rest[2..2 + sl], rest[2 + sl..]))
  }

  lemma OidDerReads(oid: Oid)
    requires |OidDer(oid)| <= 255
    ensures OidIn(OidDer(oid)) == Some(oid) <==> ValidOid(oid)
    ensures OidIn(OidDer(oid)) == match OidOf(OidOctets(oid)) case Err(_) => None case Ok(o) => Some(o)
  {
    hide OidOf, OidOctets, ExpectAt, Encode;
    var e := Primitive(TAG_OID, OidOctets(oid));
    OidRoundTrip(oid);
    PrimitiveSize(TAG_OID, OidOctets(oid));
    ElementExpects(e, Encode(e), 0, TAG_OID);
  }

  lemma PrimitiveSize(t: Tag, value: octets)
    ensures |Encode(Primitive(t, value))| >= |value|
  {
  }

  lemma OidAndSelectorParts(oid: Oid, sel: octets, rest: octets)
    requires OidAndSelector(oid, sel).Ok?
    ensures var b := OidAndSelector(oid, sel).value + rest;
            var n := |OidDer(oid)|;
            && b[0] as int == n && n + 3 <= |b| && b[1..1 + n] == OidDer(oid)
            && U16Of(b[1 + n], b[2 + n]) == |sel| && b[3 + n..3 + n + |sel|] == sel && b[3 + n + |sel|..] == rest
  {
    hide OidDer, U16Octets;
    var der := OidDer(oid);
    var n := |der|;
    var b := OidAndSelector(oid, sel).value + rest;
    assert b == [n as byte] + der + (U16Octets(|sel|) + (sel + rest));
    U16Reads(|sel|, sel + rest);
    var tail := U16Octets(|sel|) + (sel + rest);
    assert b[1 + n..] == tail;
    assert b[1 + n] == tail[0] && b[2 + n] == tail[1];
    assert tail[2..] == sel + rest;
    assert b[3 + n..] == b[1 + n..][2..] == sel + rest;
    assert b[3 + n..3 + n + |sel|] == (sel + rest)[..|sel|];
    assert b[3 + n + |sel|..] == (sel + rest)[|sel|..];
  }

  /** What is written reads back, whatever follows it, exactly when the object
      identifier is a valid one. */
  lemma OidAndSelectorRoundTrip(oid: Oid, sel: octets, rest: octets)
    requires OidAndSelector(oid, sel).Ok?
    ensures OidAndSelectorOf(OidAndSelector(oid, sel).value + rest) == Ok((oid, sel, rest)) <==> ValidOid(oid)
  {
    hide OidDer, OidIn, OidAndSelector;
    OidAndSelectorParts(oid, sel, rest);
    OidLength(oid, sel);
    OidDerReads(oid);
    var b := OidAndSelector(oid, sel).value + rest;
    var n := |OidDer(oid)|;
    var tail := b[1 + n..];
    assert tail[0] == b[1 + n] && tail[1] == b[2 + n];
    assert tail[2..2 + |sel|] == b[3 + n..3 + n + |sel|] && tail[2 + |sel|..] == b[3 + n + |sel|..];
  }

  lemma OidLength(oid: Oid, sel: octets)
    requires OidAndSelector(oid, sel).Ok?
    ensures |OidDer(oid)| <= 255 && |sel| <= 0xffff
    ensures |OidAndSelector(oid, sel).value| == 3 + |OidDer(oid)| + |sel|
  {
    hide OidDer;
  }

  // ---- Groups.

  datatype GroupId = GroupId(keyId: u32, oid: Option<Oid>, selector: octets)

  function GroupIdPayload(g: GroupId): Result<IdPayload, Fault>
  {
    match g.oid
    case None => Ok(IdPayload(ID_KEY_ID, U32Octets(g.keyId)))
    case Some(oid) =>
      match OidAndSelector(oid, g.selector)
      case Err(f) => Err(f)
      case Ok(data) => Ok(IdPayload(ID_OID, data))
  }

  function GroupIdOf(id: IdPayload): Result<GroupId, Fault>
  {
    if id.kind == ID_KEY_ID then
      if |id.data| != 4 then Err(Malformed)
      else Ok(GroupId(U32Of(id.data[0], id.data[1], id.data[2], id.data[3]), None, []))
    else if id.kind == ID_OID then
      match OidAndSelectorOf(id.data)
      case Err(f) => Err(f)
      case Ok((oid, selector, rest)) => if rest != [] then Err(Malformed) else Ok(GroupId(0, Some(oid), selector))
    else Err(Malformed)
  }

  /** A group named one way only, by its number or by a valid identifier. */
  predicate NamedOnce(g: GroupId)
  {
    match g.oid
    case None => g.selector == []
    case Some(oid) => g.keyId == 0 && ValidOid(oid)
  }

  /** The identity a group is asked for by is the group's own exactly when it
      is named one way only. */
  lemma GroupIdRoundTrip(g: GroupId)
    requires GroupIdPayload(g).Ok?
    ensures GroupIdOf(GroupIdPayload(g).value) == Ok(g) <==> NamedOnce(g)
  {
    hide OidAndSelector, OidAndSelectorOf, U32Octets, U32Of, ValidOid;
    match g.oid
    case None => U32RoundTrip(g.keyId);
    case Some(oid) =>
      OidAndSelectorRoundTrip(oid, g.selector, []);
      var data := OidAndSelector(oid, g.selector).value;
      assert data + [] == data;
  }

  /** A group numbered 1 with a selector is asked for without the selector. */
  lemma SelectorLostExample()
    ensures var g := GroupId(1, None, [7]); GroupIdPayload(g).Ok? && GroupIdOf(GroupIdPayload(g).value) == Ok(GroupId(1, None, []))
  {
    hide U32Octets, U32Of;
    U32RoundTrip(1);
  }

  // ---- Keys and their policy.

  const AUTH_NONE: u16 := 1
  const ENC_NONE: u16 := 1
  const ENC_CBC_128: u16 := 2
  const ENC_CBC_256: u16 := 3
  const ENC_GCM_128: u16 := 4
  const ENC_GCM_256: u16 := 5

  datatype Tek = Tek(
    spi: u32, oid: Oid, selector: octets, auth: u16, enc: u16, lifetime: nat, delay: nat, kda: Option<u16>,
    algorithmKey: octets, integrityKey: octets)

  function AuthKeyLength(auth: u16): (r: Option<nat>)
    ensures r.Some? ==> r.value <= 36
  {
    match auth
    case 1 => Some(0)
    case 2 => Some(32)
    case 3 => Some(32)
    case 4 => Some(20)
    case 5 => Some(36)
    case _ => None
  }

  function EncKeyLength(enc: u16): (r: Option<nat>)
    ensures r.Some? ==> r.value <= 36
  {
    match enc
    case 1 => Some(0)
    case 2 => Some(16)
    case 3 => Some(32)
    case 4 => Some(20)
    case 5 => Some(36)
    case _ => None
  }

  predicate CheckPolicy(t: Tek)
  {
    var al, el := AuthKeyLength(t.auth), EncKeyLength(t.enc);
    && al.Some? && el.Some?
    && t.spi != 0
    && !((t.enc == ENC_GCM_128 || t.enc == ENC_GCM_256) && t.auth != AUTH_NONE)
    && !((t.enc == ENC_CBC_128 || t.enc == ENC_CBC_256) && t.auth == AUTH_NONE)
    && !(t.enc == ENC_NONE && t.auth == AUTH_NONE)
    && |t.integrityKey| == al.value && |t.algorithmKey| == el.value
  }

  /** Whole seconds, rounded up, as far as 32 bits go. */
  function Seconds(d: nat): u32
  {
    var s := d / SECOND + if d % SECOND > 0 then 1 else 0;
    if s > U32_MAX then U32_MAX else s
  }

  function RoundedUp(d: nat): nat { Seconds(d) * SECOND }

  /** A remaining time never becomes none, and never shrinks unless it is too
      long for 32 bits of seconds. */
  lemma RoundingUp(d: nat)
    ensures RoundedUp(d) == 0 <==> d == 0
    ensures d <= RoundedUp(d) <==> d <= U32_MAX * SECOND
    ensures RoundedUp(d) < d + SECOND
    ensures RoundedUp(RoundedUp(d)) == RoundedUp(d)
  {
  }

  function Rounded(t: Tek): Tek { t.(lifetime := RoundedUp(t.lifetime), delay := RoundedUp(t.delay)) }

  function SansKeys(t: Tek): Tek { t.(algorithmKey := [], integrityKey := []) }

  // ---- The SA TEK payload.

  const ATTR_SA_ATD: u16 := 1
  const ATTR_SA_KDA: u16 := 2

  function SatAttrs(t: Tek): (r: seq<Attribute>)
    ensures EncodableAttrs(r)
  {
    (if t.delay != 0 then [Variable(ATTR_SA_ATD, U32Octets(Seconds(t.delay)))] else []) +
    (if t.kda.Some? then [Basic(ATTR_SA_KDA, t.kda.value)] else [])
  }

  function SatPolicy(t: Tek): (b: octets)
    ensures |b| == 12
  {
    U32Octets(t.spi) + U16Octets(t.auth) + U16Octets(t.enc) + U32Octets(Seconds(t.lifetime))
  }

  function SatBody(t: Tek): Result<octets, Fault>
  {
    match OidAndSelector(t.oid, t.selector)
    case Err(f) => Err(f)
    case Ok(name) => Ok([PROTO_IEC61850] + name + (SatPolicy(t) + EncodeAttrs(SatAttrs(t))))
  }

  function WithAttrs(t: Tek, attrs: seq<Attribute>): Result<Tek, Fault>
    decreases attrs
  {
    if attrs == [] then Ok(t)
    else
      var a := attrs[0];
      if a.kind == ATTR_SA_ATD then
        if |a.value| > 8 then Err(Malformed) else WithAttrs(t.(delay := BeValue(a.value) * SECOND), attrs[1..])
      else if a.kind == ATTR_SA_KDA then WithAttrs(t.(kda := Some(BeValue(a.value) % 0x1_0000)), attrs[1..])
      else WithAttrs(t, attrs[1..])
  }

  function PolicyOf(oid: Oid, selector: octets, b: octets): Result<Tek, Fault>
  {
    if |b| < 12 then Err(Malformed)
    else
      var t := Tek(U32Of(b[0], b[1], b[2], b[3]), oid, selector, U16Of(b[4], b[5]), U16Of(b[6], b[7]),
                   U32Of(b[8], b[9], b[10], b[11]) * SECOND, 0, None, [], []);
      match ParseAttrs(b[12..])
      case Err(f) => Err(f)
      case Ok(attrs) => WithAttrs(t, attrs)
  }

  /** The policy an SA TEK payload states; none for another protocol. */
  function SatOf(b: octets): Result<Option<Tek>, Fault>
  {
    if b == [] then Err(Malformed)
    else if b[0] != PROTO_IEC61850 then Ok(None)
    else
      match OidAndSelectorOf(b[1..])
      case Err(f) => Err(f)
      case Ok((oid, selector, rest)) =>
        match PolicyOf(oid, selector, rest)
        case Err(f) => Err(f)
        case Ok(t) => Ok(Some(t))
  }

  lemma BeValueU32(v: u32)
    ensures BeValue(U32Octets(v)) == v
  {
    hide BeOctets, BeValue, Pow256;
    Words();
    BeRoundTrip(v, 4);
  }

  lemma AttrsApply(t: Tek, base: Tek)
    requires base.delay == 0 && base.kda == None
    ensures WithAttrs(base, SatAttrs(t)) == Ok(base.(delay := RoundedUp(t.delay), kda := t.kda))
  {
    hide BeValue, U32Octets, U16Octets, Seconds;
    BeValueU32(Seconds(t.delay));
    RoundingUp(t.delay);
    var attrs := SatAttrs(t);
    if t.kda.Some? {
      U16RoundTrip(t.kda.value);
      var k := Basic(ATTR_SA_KDA, t.kda.value);
      var next := base.(delay := RoundedUp(t.delay));
      assert [k][1..] == [];
      assert WithAttrs(next, [k]) == Ok(next.(kda := t.kda));
      if t.delay != 0 { assert attrs[1..] == [k]; } else { assert attrs == [k]; }
    } else if t.delay != 0 {
      assert attrs[1..] == [];
    }
  }

  lemma PolicyReads(t: Tek, tail: octets)
    ensures var b := SatPolicy(t) + tail;
            && U32Of(b[0], b[1], b[2], b[3]) == t.spi && U16Of(b[4], b[5]) == t.auth && U16Of(b[6], b[7]) == t.enc
            && U32Of(b[8], b[9], b[10], b[11]) == Seconds(t.lifetime) && b[12..] == tail
  {
    hide U32Octets, U32Of, U16Octets, Seconds;
    var b := SatPolicy(t) + tail;
    U32RoundTrip(t.spi);
    U16RoundTrip(t.auth);
    U16RoundTrip(t.enc);
    U32RoundTrip(Seconds(t.lifetime));
    assert b[0..4] == U32Octets(t.spi) && b[8..12] == U32Octets(Seconds(t.lifetime));
    Four(b, 0);
    Four(b, 8);
    assert b[4..6] == U16Octets(t.auth) && b[6..8] == U16Octets(t.enc);
    assert b[4] == b[4..6][0] && b[5] == b[4..6][1] && b[6] == b[6..8][0] && b[7] == b[6..8][1];
  }

  lemma SatReads(t: Tek)
    requires SatBody(t).Ok? && ValidOid(t.oid)
    ensures SatOf(SatBody(t).value) == Ok(Some(SansKeys(Rounded(t))))
  {
    hide OidAndSelector, OidAndSelectorOf, SatPolicy, Seconds, ValidOid, WithAttrs, ParseAttrs, EncodeAttrs, SatAttrs;
    var name := OidAndSelector(t.oid, t.selector).value;
    var attrs := SatAttrs(t);
    var tail := SatPolicy(t) + EncodeAttrs(attrs);
    OidAndSelectorRoundTrip(t.oid, t.selector, tail);
    var b := SatBody(t).value;
    assert b[1..] == name + tail;
    PolicyReads(t, EncodeAttrs(attrs));
    AttrsRoundTrip(attrs);
    AttrsApply(t, Tek(t.spi, t.oid, t.selector, t.auth, t.enc, RoundedUp(t.lifetime), 0, None, [], []));
  }

  // ---- The SA payload.

  function Sats(teks: seq<Tek>): (r: Result<seq<Payload>, Fault>)
    ensures r.Ok? ==> |r.value| == |teks|
  {
    if teks == [] then Ok([])
    else
      match SatBody(teks[0])
      case Err(f) => Err(f)
      case Ok(b) =>
        match Sats(teks[1..])
        case Err(f) => Err(f)
        case Ok(rest) => Ok([Payload(P_SAT, b)] + rest)
  }

  function SaBody(teks: seq<Tek>): Result<octets, Fault>
  {
    if teks == [] then Err(Config)
    else
      match Sats(teks)
      case Err(f) => Err(f)
      case Ok(sats) =>
        Ok(U32Octets(DOI_GDOI) + U32Octets(0) + U16Octets(P_SAT as int) + [0, 0] + EncodeChain(sats, P_NONE))
  }

  function SatsOf(ps: seq<Payload>): Result<seq<Tek>, Fault>
  {
    if ps == [] then Ok([])
    else if ps[0].kind != P_SAT then SatsOf(ps[1..])
    else
      match SatOf(ps[0].body)
      case Err(f) => Err(f)
      case Ok(t) =>
        match SatsOf(ps[1..])
        case Err(f) => Err(f)
        case Ok(rest) => Ok(if t.Some? then [t.value] + rest else rest)
  }

  function SaOf(b: octets): Result<seq<Tek>, Fault>
  {
    if |b| < 12 || U32Of(b[0], b[1], b[2], b[3]) != DOI_GDOI then Err(Malformed)
    else
      var first: int := U16Of(b[8], b[9]);
      if first > 255 then Err(Malformed)
      else
        match ParseChain(b[12..], first as byte)
        case Err(f) => Err(f)
        case Ok((ps, _)) => SatsOf(ps)
  }

  /** TEKs whose policy can be written: their identifiers are valid and each
      payload fits its length field. */
  predicate Writable(teks: seq<Tek>)
  {
    forall i :: 0 <= i < |teks| ==>
      ValidOid(teks[i].oid) && SatBody(teks[i]).Ok? && 4 + |SatBody(teks[i]).value| < 0x1_0000
  }

  function Policies(teks: seq<Tek>): (r: seq<Tek>)
    ensures |r| == |teks| && forall i :: 0 <= i < |r| ==> r[i] == SansKeys(Rounded(teks[i]))
  {
    seq(|teks|, i requires 0 <= i < |teks| => SansKeys(Rounded(teks[i])))
  }

  lemma {:induction false} SatsRead(teks: seq<Tek>)
    requires Writable(teks)
    ensures Sats(teks).Ok? && Encodable(Sats(teks).value) && SatsOf(Sats(teks).value) == Ok(Policies(teks))
    ensures forall i :: 0 <= i < |teks| ==> Sats(teks).value[i].kind == P_SAT
  {
    hide SatBody, SatOf, ValidOid;
    if teks != [] {
      SatsRead(teks[1..]);
      SatReads(teks[0]);
      var rest := Sats(teks[1..]).value;
      var p := Payload(P_SAT, SatBody(teks[0]).value);
      assert ([p] + rest)[1..] == rest;
      assert Policies(teks) == [SansKeys(Rounded(teks[0]))] + Policies(teks[1..]);
    }
  }

  lemma SaReads(teks: seq<Tek>)
    requires Writable(teks) && 1 <= |teks| <= MAX_PAYLOADS
    ensures SaBody(teks).Ok? && SaOf(SaBody(teks).value) == Ok(Policies(teks))
  {
    hide Sats, SatsOf, EncodeChain, ParseChain, SatBody, ValidOid, U32Octets, U32Of, U16Octets;
    SatsRead(teks);
    var sats := Sats(teks).value;
    var chain := EncodeChain(sats, P_NONE);
    var b := SaBody(teks).value;
    U32RoundTrip(DOI_GDOI);
    assert b[0..4] == U32Octets(DOI_GDOI);
    Four(b, 0);
    U16RoundTrip(16);
    assert b[8..10] == U16Octets(16);
    assert b[8] == b[8..10][0] && b[9] == b[8..10][1];
    assert b[12..] == chain && chain + [] == chain;
    ChainRoundTrip(sats, []);
  }

  // ---- The Key Download payload.

  const ATTR_TEK_ALGORITHM_KEY: u16 := 1
  const ATTR_TEK_INTEGRITY_KEY: u16 := 2

  datatype KeyPacket = KeyPacket(algorithm: octets, integrity: octets)

  function KeyAttrs(t: Tek): (r: seq<Attribute>)
    ensures AllWellMade(r)
  {
    (if t.algorithmKey != [] then [Variable(ATTR_TEK_ALGORITHM_KEY, t.algorithmKey)] else []) +
    (if t.integrityKey != [] then [Variable(ATTR_TEK_INTEGRITY_KEY, t.integrityKey)] else [])
  }

  function PacketOctets(t: Tek): octets
  {
    var attrs := EncodeAttrs(KeyAttrs(t));
    [KD_TYPE_TEK, 0] + U16Octets((9 + |attrs|) % 0x1_0000) + ([4] + U32Octets(t.spi) + attrs)
  }

  function Packets(teks: seq<Tek>): octets
  {
    if teks == [] then [] else PacketOctets(teks[0]) + Packets(teks[1..])
  }

  function KdBody(teks: seq<Tek>): octets { U16Octets(|teks| % 0x1_0000) + [0, 0] + Packets(teks) }

  method AppendKd(teks: seq<Tek>) returns (b: octets)
    ensures b == KdBody(teks)
  {
    hide EncodeAttrs, U16Octets, U32Octets;
    b := U16Octets(|teks| % 0x1_0000);
    b := b + [0, 0];
    ghost var head := b;
    assert teks[0..] == teks;
    for i := 0 to |teks|
      invariant head + Packets(teks) == b + Packets(teks[i..])
    {
      assert teks[i..][1..] == teks[i + 1..];
      var attrs: seq<Attribute> := [];
      if teks[i].algorithmKey != [] {
        attrs := attrs + [Variable(ATTR_TEK_ALGORITHM_KEY, teks[i].algorithmKey)];
      }
      if teks[i].integrityKey != [] {
        attrs := attrs + [Variable(ATTR_TEK_INTEGRITY_KEY, teks[i].integrityKey)];
      }
      assert attrs == KeyAttrs(teks[i]);
      var encoded := AppendAttrs(attrs);
      Joined(b, PacketOctets(teks[i]), Packets(teks[i + 1..]));
      b := b + ([KD_TYPE_TEK, 0] + U16Octets((9 + |encoded|) % 0x1_0000) + ([4] + U32Octets(teks[i].spi) + encoded));
    }
    assert b + [] == b;
  }

  function WithKeys(p: KeyPacket, attrs: seq<Attribute>): KeyPacket
    decreases attrs
  {
    if attrs == [] then p
    else if attrs[0].kind == ATTR_TEK_ALGORITHM_KEY then WithKeys(p.(algorithm := attrs[0].value), attrs[1..])
    else if attrs[0].kind == ATTR_TEK_INTEGRITY_KEY then WithKeys(p.(integrity := attrs[0].value), attrs[1..])
    else WithKeys(p, attrs[1..])
  }

  /** The SPI and keys of a TEK packet, which the octets after its length hold. */
  function PacketOf(kp: octets): Result<(u32, KeyPacket), Fault>
    requires |kp| >= 5
  {
    if kp[4] != 4 || 9 > |kp| then Err(Malformed)
    else
      match ParseAttrs(kp[9..])
      case Err(f) => Err(f)
      case Ok(attrs) => Ok((U32Of(kp[5], kp[6], kp[7], kp[8]), WithKeys(KeyPacket([], []), attrs)))
  }

  function PacketsOf(b: octets, n: nat, out: map<u32, KeyPacket>): Result<map<u32, KeyPacket>, Fault>
    decreases n
  {
    if n == 0 then Ok(out)
    else if |b| < 5 then Err(Malformed)
    else
      var kl: nat := U16Of(b[2], b[3]);
      if kl < 5 || kl > |b| then Err(Malformed)
      else if b[0] != KD_TYPE_TEK then PacketsOf(b[kl..], n - 1, out)
      else
        match PacketOf(b[..kl])
        case Err(f) => Err(f)
        case Ok((spi, p)) => PacketsOf(b[kl..], n - 1, out[spi := p])
  }

  function KdOf(b: octets): Result<map<u32, KeyPacket>, Fault>
  {
    if |b| < 4 then Err(Malformed) else PacketsOf(b[4..], U16Of(b[0], b[1]), map[])
  }

  method ReadKd(b: octets) returns (r: Result<map<u32, KeyPacket>, Fault>)
    ensures r == KdOf(b)
  {
    hide ParseAttrs, PacketsOf, WithKeys;
    if |b| < 4 {
      return Err(Malformed);
    }
    var n: nat := U16Of(b[0], b[1]);
    var out: map<u32, KeyPacket> := map[];
    var off := 4;
    for i := 0 to n
      invariant 4 <= off <= |b|
      invariant KdOf(b) == PacketsOf(b[off..], n - i, out)
    {
      PacketStep(b, off, n - i, out);
      if |b| - off < 5 {
        return Err(Malformed);
      }
      var kind := b[off];
      var kl := U16Of(b[off + 2], b[off + 3]);
      if kl < 5 || kl > |b| - off {
        return Err(Malformed);
      }
      var kp := b[off..off + kl];
      off := off + kl;
      if kind != KD_TYPE_TEK { continue; }
      if kp[4] != 4 || 9 > |kp| {
        return Err(Malformed);
      }
      var spi := U32Of(kp[5], kp[6], kp[7], kp[8]);
      var attrs := ReadAttrs(kp[9..]);
      if attrs.Err? {
        return Err(attrs.error);
      }
      var p := ReadKeys(attrs.value);
      out := out[spi := p];
    }
    assert PacketsOf(b[off..], 0, out) == Ok(out) by { NoPackets(b[off..], out); }
    return Ok(out);
  }

  lemma NoPackets(b: octets, out: map<u32, KeyPacket>)
    ensures PacketsOf(b, 0, out) == Ok(out)
  {
  }

  lemma PacketStep(b: octets, off: nat, n: nat, out: map<u32, KeyPacket>)
    requires off <= |b| && n > 0
    ensures |b| - off < 5 ==> PacketsOf(b[off..], n, out) == Err(Malformed)
    ensures |b| - off >= 5 ==>
              var kl: nat := U16Of(b[off + 2], b[off + 3]);
              if kl < 5 || kl > |b| - off then PacketsOf(b[off..], n, out) == Err(Malformed)
              else if b[off] != KD_TYPE_TEK then PacketsOf(b[off..], n, out) == PacketsOf(b[off + kl..], n - 1, out)
              else
                var p := PacketOf(b[off..off + kl]);
                PacketsOf(b[off..], n, out) ==
                if p.Err? then Err(p.error) else PacketsOf(b[off + kl..], n - 1, out[p.value.0 := p.value.1])
  {
    hide PacketOf;
    var c := b[off..];
    if |c| >= 5 {
      assert c[0] == b[off] && c[2] == b[off + 2] && c[3] == b[off + 3];
      var kl: nat := U16Of(b[off + 2], b[off + 3]);
      if kl <= |c| { assert c[..kl] == b[off..off + kl] && c[kl..] == b[off + kl..]; }
    }
  }

  method ReadKeys(attrs: seq<Attribute>) returns (p: KeyPacket)
    ensures p == WithKeys(KeyPacket([], []), attrs)
  {
    p := KeyPacket([], []);
    assert attrs[0..] == attrs;
    for i := 0 to |attrs|
      invariant WithKeys(KeyPacket([], []), attrs) == WithKeys(p, attrs[i..])
    {
      assert attrs[i..][1..] == attrs[i + 1..];
      if attrs[i].kind == ATTR_TEK_ALGORITHM_KEY {
        p := p.(algorithm := attrs[i].value);
      } else if attrs[i].kind == ATTR_TEK_INTEGRITY_KEY {
        p := p.(integrity := attrs[i].value);
      }
    }
  }

  function KeysOf(t: Tek): KeyPacket { KeyPacket(t.algorithmKey, t.integrityKey) }

  lemma KeysApply(t: Tek)
    ensures WithKeys(KeyPacket([], []), KeyAttrs(t)) == KeysOf(t)
  {
    var attrs := KeyAttrs(t);
    if t.integrityKey != [] {
      var k := Variable(ATTR_TEK_INTEGRITY_KEY, t.integrityKey);
      assert [k][1..] == [];
      assert WithKeys(KeyPacket(t.algorithmKey, []), [k]) == KeysOf(t);
      if t.algorithmKey != [] { assert attrs[1..] == [k]; } else { assert attrs == [k]; }
    } else if t.algorithmKey != [] {
      assert attrs[1..] == [];
    }
  }

  lemma {:induction false} AttrsBound(attrs: seq<Attribute>)
    requires AllWellMade(attrs) && forall i :: 0 <= i < |attrs| ==> |attrs[i].value| <= 36
    ensures |EncodeAttrs(attrs)| <= 40 * |attrs|
    decreases attrs
  {
    hide U16Octets;
    if attrs != [] { AttrsBound(attrs[1..]); }
  }

  lemma PacketReads(t: Tek, rest: octets)
    requires CheckPolicy(t)
    ensures var b := PacketOctets(t) + rest;
            var kl: nat := U16Of(b[2], b[3]);
            && 9 <= kl <= |b| && b[0] == KD_TYPE_TEK && b[kl..] == rest
            && PacketOf(b[..kl]) == Ok((t.spi, KeysOf(t)))
  {
    hide U32Octets, U32Of, U16Octets, EncodeAttrs, ParseAttrs, WithKeys, KeyAttrs;
    var attrs := EncodeAttrs(KeyAttrs(t));
    KeyAttrsFit(t);
    AttrsRoundTrip(KeyAttrs(t));
    KeysApply(t);
    U32RoundTrip(t.spi);
    var p := PacketOctets(t);
    var b := p + rest;
    U16RoundTrip(9 + |attrs|);
    assert b[2..4] == U16Octets(9 + |attrs|);
    assert b[2] == b[2..4][0] && b[3] == b[2..4][1];
    assert b[..9 + |attrs|] == p;
    assert p[5..9] == U32Octets(t.spi);
    Four(p, 5);
    assert p[9..] == attrs;
  }

  lemma KeyAttrsFit(t: Tek)
    requires CheckPolicy(t)
    ensures EncodableAttrs(KeyAttrs(t)) && |EncodeAttrs(KeyAttrs(t))| <= 80
  {
    hide EncodeAttrs;
    AttrsBound(KeyAttrs(t));
  }

  function KeyMap(teks: seq<Tek>, out: map<u32, KeyPacket>): map<u32, KeyPacket>
  {
    if teks == [] then out else KeyMap(teks[1..], out[teks[0].spi := KeysOf(teks[0])])
  }

  predicate AllAllowed(teks: seq<Tek>) { forall i :: 0 <= i < |teks| ==> CheckPolicy(teks[i]) }

  lemma {:induction false} PacketsRead(teks: seq<Tek>, out: map<u32, KeyPacket>)
    requires AllAllowed(teks)
    ensures PacketsOf(Packets(teks), |teks|, out) == Ok(KeyMap(teks, out))
    decreases |teks|
  {
    hide PacketOf, PacketOctets, CheckPolicy;
    if teks != [] {
      PacketReads(teks[0], Packets(teks[1..]));
      PacketsRead(teks[1..], out[teks[0].spi := KeysOf(teks[0])]);
    }
  }

  lemma KdReads(teks: seq<Tek>)
    requires AllAllowed(teks) && |teks| < 0x1_0000
    ensures KdOf(KdBody(teks)) == Ok(KeyMap(teks, map[]))
  {
    hide PacketsOf, KeyMap, CheckPolicy, KdBody;
    KdParts(teks);
    PacketsRead(teks, map[]);
  }

  lemma KdParts(teks: seq<Tek>)
    requires |teks| < 0x1_0000
    ensures var b := KdBody(teks); |b| >= 4 && U16Of(b[0], b[1]) == |teks| && b[4..] == Packets(teks)
  {
    hide Packets, U16Octets, U16Of;
    var b := KdBody(teks);
    var tail: octets := [0, 0] + Packets(teks);
    assert |teks| % 0x1_0000 == |teks|;
    Joined(U16Octets(|teks|), [0, 0], Packets(teks));
    U16Reads(|teks|, tail);
    assert b[2..] == tail;
    assert b[4..] == b[2..][2..] == Packets(teks);
  }

  predicate DistinctSpis(teks: seq<Tek>) { forall i, j :: 0 <= i < j < |teks| ==> teks[i].spi != teks[j].spi }

  lemma {:induction false} KeyMapKeeps(teks: seq<Tek>, out: map<u32, KeyPacket>, spi: u32)
    requires spi in out && forall i :: 0 <= i < |teks| ==> teks[i].spi != spi
    ensures spi in KeyMap(teks, out) && KeyMap(teks, out)[spi] == out[spi]
    decreases |teks|
  {
    if teks != [] { KeyMapKeeps(teks[1..], out[teks[0].spi := KeysOf(teks[0])], spi); }
  }

  lemma {:induction false} KeyMapHolds(teks: seq<Tek>, out: map<u32, KeyPacket>, i: nat)
    requires DistinctSpis(teks) && i < |teks|
    ensures teks[i].spi in KeyMap(teks, out) && KeyMap(teks, out)[teks[i].spi] == KeysOf(teks[i])
    decreases |teks|
  {
    var next := out[teks[0].spi := KeysOf(teks[0])];
    if i == 0 {
      KeyMapKeeps(teks[1..], next, teks[0].spi);
    } else {
      KeyMapHolds(teks[1..], next, i - 1);
    }
  }

  // ---- Policy and keys together.

  function Join(policy: seq<Tek>, material: map<u32, KeyPacket>): Result<seq<Tek>, Fault>
  {
    if policy == [] then Ok([])
    else if policy[0].spi !in material then Err(Policy)
    else
      var p := material[policy[0].spi];
      var t := policy[0].(algorithmKey := p.algorithm, integrityKey := p.integrity);
      if !CheckPolicy(t) then Err(Policy)
      else
        match Join(policy[1..], material)
        case Err(f) => Err(f)
        case Ok(rest) => Ok([t] + rest)
  }

  ghost function Onto(done: seq<Tek>, r: Result<seq<Tek>, Fault>): Result<seq<Tek>, Fault>
  {
    match r
    case Err(f) => Err(f)
    case Ok(rest) => Ok(done + rest)
  }

  method JoinKeys(policy: seq<Tek>, material: map<u32, KeyPacket>) returns (r: Result<seq<Tek>, Fault>)
    ensures r == Join(policy, material)
  {
    hide CheckPolicy;
    var teks: seq<Tek> := [];
    assert policy[0..] == policy;
    assert Join(policy, material).Ok? ==> [] + Join(policy, material).value == Join(policy, material).value;
    for i := 0 to |policy|
      invariant Join(policy, material) == Onto(teks, Join(policy[i..], material))
    {
      assert policy[i..][1..] == policy[i + 1..];
      if policy[i].spi !in material {
        return Err(Policy);
      }
      var p := material[policy[i].spi];
      var t := policy[i].(algorithmKey := p.algorithm, integrityKey := p.integrity);
      if !CheckPolicy(t) {
        return Err(Policy);
      }
      ghost var rest := Join(policy[i + 1..], material);
      assert rest.Ok? ==> teks + ([t] + rest.value) == teks + [t] + rest.value;
      teks := teks + [t];
    }
    assert teks + [] == teks;
    return Ok(teks);
  }

  function RoundedAll(teks: seq<Tek>): (r: seq<Tek>)
    ensures |r| == |teks| && forall i :: 0 <= i < |r| ==> r[i] == Rounded(teks[i])
  {
    seq(|teks|, i requires 0 <= i < |teks| => Rounded(teks[i]))
  }

  lemma {:induction false} JoinReads(teks: seq<Tek>, material: map<u32, KeyPacket>)
    requires AllAllowed(teks)
    requires forall i :: 0 <= i < |teks| ==> teks[i].spi in material && material[teks[i].spi] == KeysOf(teks[i])
    ensures Join(Policies(teks), material) == Ok(RoundedAll(teks))
  {
    hide RoundedUp;
    if teks == [] {
      assert Policies(teks) == [] && RoundedAll(teks) == [];
    } else {
      JoinReads(teks[1..], material);
      assert Policies(teks)[1..] == Policies(teks[1..]);
      assert RoundedAll(teks) == [Rounded(teks[0])] + RoundedAll(teks[1..]);
    }
  }

  /** What a group can hold and a registration can carry. */
  predicate Holdable(teks: seq<Tek>)
  {
    1 <= |teks| <= MAX_PAYLOADS && DistinctSpis(teks) && AllAllowed(teks) && Writable(teks)
  }

  /** A group's policy and keys, sent apart and joined by SPI, are its TEKs
      again, in order, with their own keys and their times rounded up. */
  lemma JoinRestores(teks: seq<Tek>)
    requires Holdable(teks)
    ensures SaBody(teks).Ok?
    ensures var policy, material := SaOf(SaBody(teks).value), KdOf(KdBody(teks));
            policy.Ok? && material.Ok? && Join(policy.value, material.value) == Ok(RoundedAll(teks))
  {
    hide SaBody, SaOf, KdBody, KdOf, Join, CheckPolicy, SatBody, ValidOid;
    SaReads(teks);
    KdReads(teks);
    var material := KeyMap(teks, map[]);
    forall i | 0 <= i < |teks| ensures teks[i].spi in material && material[teks[i].spi] == KeysOf(teks[i]) {
      KeyMapHolds(teks, map[], i);
    }
    JoinReads(teks, material);
  }
}
