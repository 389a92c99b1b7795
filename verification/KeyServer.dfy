/** The key server (src/gdoi/server.rs): main mode as responder and
    GROUPKEY-PULL, one datagram at a time. */
module KeyServer {
  import opened Octets
  import opened Isakmp
  import opened IkeCrypto
  import opened Exchange
  import opened Teks
  import opened Groups

  const MAX_PEERS: nat := 4096
  const MAX_PULLS: nat := 16
  const PEER_TTL: nat := 120 * SECOND

  type Addr = nat

  datatype Peer = Peer(addr: Addr, idType: byte, id: octets, certificate: Option<octets>)

  /** `sigMethod` is the method of the certificate key, 0 without one. */
  datatype ServerConfig = ServerConfig(
    c: Crypto, creds: Credentials, sigMethod: u16, psk: Addr -> Option<octets>, authorize: (Peer, GroupId) -> bool,
    suites: seq<Suite>, local: Option<octets>)

  /** What `Server::new` makes sure of. */
  predicate Configured(cfg: ServerConfig)
  {
    if cfg.creds.key.Some? then SignatureMethod(cfg.sigMethod) && cfg.creds.certificates != [] else cfg.sigMethod == 0
  }

  datatype Stage = AwaitingKe | AwaitingAuth | Established

  datatype PullState = PullState(
    iv: block, ni: octets, nr: octets, group: Option<GroupId>, teks: seq<Tek>, done: bool, lastReq: octets,
    lastResp: octets)

  /** `dh` is the server's key exchange value; `session` numbers the exchanges
      in the order they began, and is not read by the server. */
  datatype Responder = Responder(
    session: nat, addr: Addr, ic: cookie, rc: cookie, stage: Stage, touched: nat, saI: octets, suite: Suite, auth: u16,
    psk: octets, dh: Option<octets>, gxi: octets, skeyid: octets, keys: Option<Keys>, iv: octets, peer: Option<Peer>,
    lastReq: octets, lastResp: octets, pulls: map<u32, PullState>)

  /** What the server draws at random, and the time it reads for a snapshot. */
  datatype Draw = Draw(rc: cookie, secret: octets, nonce: octets, msgId: u32, at: nat)

  datatype Event =
    | PeerAuthenticated(session: nat, peer: Peer)
    | Hash1Verified(session: nat, msgId: u32)
    | Authorised(session: nat, msgId: u32, peer: Peer, group: GroupId)
    | Hash3Verified(session: nat, msgId: u32)
    | Registered(session: nat, msgId: u32, peer: Peer, group: GroupId, teks: seq<Tek>)

  function HeaderFor(r: Responder, exchange: byte, msgId: u32): Header { Header(r.ic, r.rc, 0, exchange, 0, msgId, 0) }

  // ---- Main mode.

  predicate Acceptable(cfg: ServerConfig, addr: Addr, t: Transform)
  {
    && t.suite in cfg.suites
    && if t.auth == AUTH_PSK then cfg.psk(addr).Some? && cfg.psk(addr).value != [] else t.auth == cfg.sigMethod
  }

  /** The first offer the server accepts. */
  function Choose(cfg: ServerConfig, addr: Addr, ts: seq<Transform>): (r: Option<Transform>)
    ensures r.Some? ==> r.value in ts && Acceptable(cfg, addr, r.value)
    ensures r.None? ==> forall t :: t in ts ==> !Acceptable(cfg, addr, t)
  {
    if ts == [] then None
    else if Acceptable(cfg, addr, ts[0]) then Some(ts[0])
    else Choose(cfg, addr, ts[1..])
  }

  method ChooseOffer(cfg: ServerConfig, addr: Addr, ts: seq<Transform>) returns (r: Option<Transform>, psk: octets)
    ensures r == Choose(cfg, addr, ts)
    ensures r.Some? && r.value.auth == AUTH_PSK ==> cfg.psk(addr) == Some(psk)
  {
    assert ts[0..] == ts;
    for i := 0 to |ts|
      invariant Choose(cfg, addr, ts) == Choose(cfg, addr, ts[i..])
    {
      assert ts[i..][1..] == ts[i + 1..];
      if ts[i].suite !in cfg.suites { continue; }
      var found: octets := [];
      if ts[i].auth == AUTH_PSK {
        var known := cfg.psk(addr);
        if known.None? { continue; }
        if known.value == [] { continue; }
        found := known.value;
      } else if ts[i].auth != cfg.sigMethod {
        continue;
      }
      return Some(ts[i]), found;
    }
    return None, [];
  }

  /** Message 1: the chosen transform goes back unchanged. */
  function MainSa(cfg: ServerConfig, r: Responder, msg: octets): (out: (Responder, Result<octets, Fault>))
    ensures out.1.Ok? ==> out.0 == r.(saI := out.0.saI, suite := out.0.suite, auth := out.0.auth, psk := out.0.psk)
    ensures out.1.Ok? ==> Negotiated(cfg, out.0)
  {
    match Open(cfg.c, None, msg, [])
    case Err(f) => (r, Err(f))
    case Ok(o) =>
      match Find(o.payloads, P_SA)
      case None => (r, Err(Malformed))
      case Some(sa) =>
        match ParsePhase1Sa(sa.body)
        case Err(f) => (r, Err(f))
        case Ok(ts) =>
          match Choose(cfg, r.addr, ts)
          case None => (r, Err(Refused(NOTIFY_NO_PROPOSAL_CHOSEN)))
          case Some(t) =>
            if |sa.body| < 4 then (r, Err(Malformed))
            else
              var doi := U32Of(sa.body[0], sa.body[1], sa.body[2], sa.body[3]);
              var r' := r.(saI := sa.body, suite := t.suite, auth := t.auth,
                           psk := if t.auth == AUTH_PSK then cfg.psk(r.addr).value else r.psk);
              (r', Ok(Message(HeaderFor(r, XCHG_MAIN, 0),
                              [Payload(P_SA, Phase1SaWithDoi(doi, [Payload(P_TRANS, t.body)]))])))
  }

  /** The method is a pre-shared key the server has, or its certificate's. */
  predicate Negotiated(cfg: ServerConfig, r: Responder)
  {
    if r.auth == AUTH_PSK then r.psk != [] else r.auth == cfg.sigMethod
  }

  /** Message 3: the server's key exchange value and nonce; the keys follow. */
  function MainKe(cfg: ServerConfig, r: Responder, msg: octets, draw: Draw): (out: (Responder, Result<octets, Fault>))
    ensures out.1.Ok? ==> out.0 == r.(stage := AwaitingAuth, skeyid := out.0.skeyid, keys := out.0.keys,
                                      gxi := out.0.gxi, iv := out.0.iv, dh := out.0.dh)
    ensures out.1.Ok? ==> out.0.keys.Some? && out.0.dh.Some? && |out.0.iv| == BLOCK
  {
    match Open(cfg.c, None, msg, [])
    case Err(f) => (r, Err(f))
    case Ok(o) =>
      var ke, nonce := Find(o.payloads, P_KE), Find(o.payloads, P_NONCE);
      if ke.None? || nonce.None? then (r, Err(Malformed))
      else if |nonce.value.body| < 8 || |nonce.value.body| > 256 then (r, Err(Malformed))
      else
        match cfg.c.shared(r.suite.group, draw.secret, ke.value.body)
        case None => (r, Err(Malformed))
        case Some(gxy) =>
          var hf := HashOf(r.suite);
          var gxr := cfg.c.public(r.suite.group, draw.secret);
          var skeyid := Skeyid(cfg.c, hf, r.auth, r.psk, nonce.value.body, draw.nonce, gxy);
          match Derive(cfg.c, r.suite, skeyid, gxy, r.ic, r.rc)
          case Err(f) => (r.(skeyid := skeyid), Err(f))
          case Ok(keys) =>
            (r.(stage := AwaitingAuth, skeyid := skeyid, keys := Some(keys), gxi := ke.value.body,
                iv := Phase1Iv(cfg.c, hf, ke.value.body, gxr), dh := Some(gxr)),
             Ok(Message(HeaderFor(r, XCHG_MAIN, 0), [Payload(P_KE, gxr), Payload(P_NONCE, draw.nonce)])))
  }

  function HashI(cfg: ServerConfig, r: Responder, id: IdPayload): octets
    requires r.keys.Some? && r.dh.Some?
  {
    cfg.c.prf(r.keys.value.hash, r.skeyid, r.gxi + r.dh.value + r.ic + r.rc + r.saI + IdBody(id))
  }

  function HashR(cfg: ServerConfig, r: Responder, id: IdPayload): octets
    requires r.keys.Some? && r.dh.Some?
  {
    cfg.c.prf(r.keys.value.hash, r.skeyid, r.dh.value + r.gxi + r.rc + r.ic + r.saI + IdBody(id))
  }

  /** Who the member is, if its authentication holds. */
  function CheckMember(cfg: ServerConfig, r: Responder, ps: seq<Payload>): (out: Result<Peer, Fault>)
    requires r.keys.Some? && r.dh.Some?
    ensures out.Ok? && r.auth != AUTH_PSK ==> SignatureMethod(r.auth)
  {
    match Find(ps, P_ID)
    case None => Err(Refused(NOTIFY_AUTH_FAILED))
    case Some(idp) =>
      match IdOf(idp.body)
      case Err(_) => Err(Refused(NOTIFY_AUTH_FAILED))
      case Ok(id) =>
        var hash := HashI(cfg, r, id);
        if r.auth == AUTH_PSK then
          var hp := Find(ps, P_HASH);
          if hp.Some? && hp.value.body == hash then Ok(Peer(r.addr, id.kind, id.data, None))
          else Err(Refused(NOTIFY_AUTH_FAILED))
        else
          match CertsOf(ps)
          case Err(_) => Err(Refused(NOTIFY_INVALID_CERT))
          case Ok(certs) =>
            match VerifyPeer(cfg.c, cfg.creds, id, certs)
            case Err(_) => Err(Refused(NOTIFY_INVALID_CERT))
            case Ok(key) =>
              var sp := Find(ps, P_SIG);
              if sp.None? then Err(Malformed)
              else if !Verifies(cfg.c, r.auth, key, hash, sp.value.body) then Err(Refused(NOTIFY_INVALID_SIGNATURE))
              else Ok(Peer(r.addr, id.kind, id.data, Some(certs[0])))
  }

  /** The payloads that authenticate the server. */
  function ServerProof(cfg: ServerConfig, r: Responder): Result<seq<Payload>, Fault>
    requires r.keys.Some? && r.dh.Some? && (r.auth != AUTH_PSK ==> cfg.creds.key.Some?)
  {
    match OwnId(cfg.c, cfg.creds, cfg.local)
    case Err(f) => Err(f)
    case Ok(id) =>
      var hash := HashR(cfg, r, id);
      if r.auth == AUTH_PSK then Ok([Payload(P_ID, IdBody(id)), Payload(P_HASH, hash)])
      else
        match Sign(cfg.c, r.auth, cfg.creds.key.value, hash)
        case Err(f) => Err(f)
        case Ok(sig) => Ok([Payload(P_ID, IdBody(id))] + CertPayloads(cfg.creds.certificates) + [Payload(P_SIG, sig)])
  }

  /** Message 5: the member's authentication is checked and the server's sent. */
  function MainAuth(cfg: ServerConfig, r: Responder, msg: octets): (out: (Responder, Result<octets, Fault>))
    requires Configured(cfg) && Negotiated(cfg, r) && r.keys.Some? && r.dh.Some? && |r.iv| == BLOCK
    ensures out.1.Err? ==> out.0 == r
    ensures out.1.Ok? ==> out.0.peer.Some? && out.0.keys.Some? && out.0.keys.value.last.Some?
    ensures out.1.Ok? ==> out.0 == r.(stage := Established, keys := out.0.keys, peer := out.0.peer)
  {
    match Open(cfg.c, r.keys, msg, r.iv)
    case Err(_) => (r, Err(Refused(NOTIFY_AUTH_FAILED)))
    case Ok(o) =>
      if !Encrypted(o.header) then (r, Err(Malformed))
      else
        match CheckMember(cfg, r, o.payloads)
        case Err(f) => (r, Err(f))
        case Ok(peer) =>
          match ServerProof(cfg, r)
          case Err(f) => (r, Err(f))
          case Ok(out) =>
            var (resp, last) := Sealed(cfg.c, r.keys.value, HeaderFor(r, XCHG_MAIN, 0), out, o.nextIv);
            (r.(stage := Established, keys := Some(r.keys.value.(last := Some(last))), peer := Some(peer)), Ok(resp))
  }

  // ---- GROUPKEY-PULL.

  type GroupTable = map<GroupId, seq<GroupTek>>

  datatype Pulled = Pulled(p: PullState, reply: Result<octets, Fault>, groups: GroupTable, events: seq<Event>)

  function PullMac(c: Crypto, k: Keys, mid: u32, data: octets): octets { c.prf(k.hash, k.a, U32Octets(mid) + data) }

  /** The group message 1 asks for and the nonce it brings. */
  function PullRequest(rest: seq<Payload>): Result<(octets, GroupId), Fault>
  {
    var nonce, idp := Find(rest, P_NONCE), Find(rest, P_ID);
    if nonce.None? || idp.None? then Err(Malformed)
    else if |nonce.value.body| < 8 || |nonce.value.body| > 128 then Err(Malformed)
    else
      match IdOf(idp.value.body)
      case Err(f) => Err(f)
      case Ok(id) =>
        match GroupIdOf(id)
        case Err(_) => Err(Refused(NOTIFY_INVALID_ID_INFO))
        case Ok(g) => Ok((nonce.value.body, g))
  }

  /** Message 1, its HASH(1) verified: the group's policy. */
  function PullPolicy(
    cfg: ServerConfig, r: Responder, p: PullState, mid: u32, msg: octets, rest: seq<Payload>, iv: block,
    groups: GroupTable, draw: Draw): (out: Pulled)
    requires r.keys.Some? && r.peer.Some? && p.ni == []
    ensures out.reply.Ok? <==> |out.events| == 2
    ensures out.events == if out.reply.Ok? && out.p.group.Some? then
              [Hash1Verified(r.session, mid), Authorised(r.session, mid, r.peer.value, out.p.group.value)]
            else [Hash1Verified(r.session, mid)]
    ensures out.reply.Err? ==> out.p == p
    ensures out.reply.Ok? ==> && out.p.group.Some? && cfg.authorize(r.peer.value, out.p.group.value)
                              && out.p.done == p.done && out.p.ni != []
  {
    hide Snapshot, Live, SaBody, Sealed, EncodeChain, PullMac;
    var seen := [Hash1Verified(r.session, mid)];
    match PullRequest(rest)
    case Err(f) => Pulled(p, Err(f), groups, seen)
    case Ok((ni, g)) =>
      if g !in groups || !cfg.authorize(r.peer.value, g) then
        Pulled(p, Err(Refused(NOTIFY_INVALID_ID_INFO)), groups, seen)
      else
        var teks := Snapshot(groups[g], draw.at);
        var groups' := groups[g := Live(groups[g], draw.at)];
        match SaBody(teks)
        case Err(_) => Pulled(p, Err(Refused(NOTIFY_INVALID_ID_INFO)), groups', seen)
        case Ok(sa) =>
          var k := r.keys.value;
          var out := [Payload(P_NONCE, draw.nonce), Payload(P_SA, sa)];
          var hash := PullMac(cfg.c, k, mid, ni + EncodeChain(out, P_NONE));
          var (resp, next) := Sealed(cfg.c, k, HeaderFor(r, XCHG_PULL, mid), [Payload(P_HASH, hash)] + out, iv);
          Pulled(PullState(next, ni, draw.nonce, Some(g), teks, p.done, msg, resp), Ok(resp), groups',
                 seen + [Authorised(r.session, mid, r.peer.value, g)])
  }

  /** Message 3, its HASH(3) verified: the keys, and the registration is told. */
  function PullKeys(cfg: ServerConfig, r: Responder, p: PullState, mid: u32, msg: octets, iv: block, groups: GroupTable): Pulled
    requires r.keys.Some? && r.peer.Some?
  {
    var k := r.keys.value;
    var out := [Payload(P_KD, KdBody(p.teks))];
    var hash := PullMac(cfg.c, k, mid, p.ni + p.nr + EncodeChain(out, P_NONE));
    var resp := Sealed(cfg.c, k, HeaderFor(r, XCHG_PULL, mid), [Payload(P_HASH, hash)] + out, iv).0;
    Pulled(p.(done := true, lastReq := msg, lastResp := resp), Ok(resp), groups,
           [Hash3Verified(r.session, mid)] +
           if p.group.Some? then [Registered(r.session, mid, r.peer.value, p.group.value, p.teks)] else [])
  }

  function PullStep(
    cfg: ServerConfig, r: Responder, p: PullState, h: Header, msg: octets, groups: GroupTable, draw: Draw): Pulled
    requires r.keys.Some? && r.peer.Some?
  {
    match Open(cfg.c, r.keys, msg, p.iv)
    case Err(f) => Pulled(p, Err(f), groups, [])
    case Ok(o) =>
      match Hashed(o)
      case Err(f) => Pulled(p, Err(f), groups, [])
      case Ok((hp, rest, covered)) =>
        var k := r.keys.value;
        if p.ni == [] then
          if hp.body != PullMac(cfg.c, k, h.msgId, covered) then
            Pulled(p, Err(Refused(NOTIFY_INVALID_HASH_INFO)), groups, [])
          else PullPolicy(cfg, r, p, h.msgId, msg, rest, o.nextIv, groups, draw)
        else if hp.body != PullMac(cfg.c, k, h.msgId, p.ni + p.nr + covered) then
          Pulled(p, Err(Refused(NOTIFY_INVALID_HASH_INFO)), groups, [])
        else PullKeys(cfg, r, p, h.msgId, msg, o.nextIv, groups)
  }

  datatype Outcome = Outcome(r: Responder, reply: Result<Option<octets>, Fault>, groups: GroupTable, events: seq<Event>)

  function FreshPull(c: Crypto, k: Keys, mid: u32): PullState
  {
    PullState(Phase2Iv(c, k, mid), [], [], None, [], false, [], [])
  }

  function Pull(cfg: ServerConfig, r: Responder, h: Header, msg: octets, groups: GroupTable, draw: Draw): Outcome
    requires r.keys.Some? && r.peer.Some?
  {
    var mid := h.msgId;
    if mid in r.pulls && r.pulls[mid].lastReq != [] && msg == r.pulls[mid].lastReq then
      Outcome(r, Ok(Some(r.pulls[mid].lastResp)), groups, [])
    else if mid in r.pulls && r.pulls[mid].done then Outcome(r, Err(Malformed), groups, [])
    else if mid !in r.pulls && |r.pulls| >= MAX_PULLS then Outcome(r, Err(Malformed), groups, [])
    else
      var p := if mid in r.pulls then r.pulls[mid] else FreshPull(cfg.c, r.keys.value, mid);
      var out := PullStep(cfg, r, p, h, msg, groups, draw);
      Outcome(r.(pulls := r.pulls[mid := out.p]), Answer(out.reply), out.groups, out.events)
  }

  function Answer(r: Result<octets, Fault>): Result<Option<octets>, Fault>
  {
    match r
    case Ok(m) => Ok(Some(m))
    case Err(f) => Err(f)
  }

  // ---- One step of a responder.

  /** What each stage guarantees, so that nothing a step takes for granted is
      missing. */
  predicate ResponderOk(cfg: ServerConfig, r: Responder)
  {
    && (r.stage != AwaitingKe ==> r.keys.Some? && r.dh.Some? && |r.iv| == BLOCK)
    && (r.stage == Established ==> r.peer.Some? && r.keys.value.last.Some?)
    && (r.stage != Established ==> r.pulls == map[])
    && |r.pulls| <= MAX_PULLS
  }

  function ResponderStep(
    cfg: ServerConfig, r: Responder, h: Header, msg: octets, groups: GroupTable, draw: Draw): Outcome
    requires Configured(cfg) && ResponderOk(cfg, r)
    requires h.rc != NO_COOKIE ==> Negotiated(cfg, r)
    requires h.rc == NO_COOKIE ==> r.stage == AwaitingKe
  {
    if h.exchange == XCHG_MAIN && r.stage == AwaitingKe && h.rc == NO_COOKIE then
      var (r', reply) := MainSa(cfg, r, msg);
      Outcome(r', Answer(reply), groups, [])
    else if h.exchange == XCHG_MAIN && r.stage == AwaitingKe then
      var (r', reply) := MainKe(cfg, r, msg, draw);
      Outcome(r', Answer(reply), groups, [])
    else if h.exchange == XCHG_MAIN && r.stage == AwaitingAuth then
      var (r', reply) := MainAuth(cfg, r, msg);
      Outcome(r', Answer(reply), groups, if reply.Ok? then [PeerAuthenticated(r.session, r'.peer.value)] else [])
    else if h.exchange == XCHG_PULL && r.stage == Established then Pull(cfg, r, h, msg, groups, draw)
    else if h.exchange == XCHG_INFO then Outcome(r, Ok(None), groups, [])
    else Outcome(r, Err(Malformed), groups, [])
  }

  // ---- The server.

  type Peers = map<cookie, Responder>

  datatype ServerState = ServerState(groups: GroupTable, peers: Peers, sessions: nat, log: seq<Event>)

  predicate PeerOk(cfg: ServerConfig, ic: cookie, r: Responder)
  {
    r.ic == ic && r.rc != NO_COOKIE && ResponderOk(cfg, r) && Negotiated(cfg, r)
  }

  predicate ServerOk(cfg: ServerConfig, s: ServerState)
  {
    && |s.peers| <= MAX_PEERS
    && forall ic :: ic in s.peers ==> PeerOk(cfg, ic, s.peers[ic])
  }

  function NewResponder(session: nat, addr: Addr, ic: cookie, rc: cookie, now: nat): Responder
  {
    Responder(session, addr, ic, rc, AwaitingKe, now, [], DEFAULT_SUITES[0], 0, [], None, [], [], None, [], None, [], [],
              map[])
  }

  /** What may be left when idle states go and then, while there are too many,
      the least recently active. */
  ghost predicate Expired(before: Peers, now: nat, after: Peers)
  {
    && |after| < MAX_PEERS
    && (forall ic :: ic in after ==> ic in before && after[ic] == before[ic])
    && (forall ic :: ic in after ==> IsRecent(after[ic], now))
    && (forall ic :: ic in before && ic !in after && IsRecent(before[ic], now) ==>
          |after| == MAX_PEERS - 1 && forall other :: other in after ==> before[ic].touched <= after[other].touched)
  }

  predicate IsRecent(r: Responder, now: nat) { now <= r.touched + PEER_TTL }

  /** A step's outcome put into the server's state. */
  function Settle(cfg: ServerConfig, s: ServerState, ic: cookie, out: Outcome, msg: octets, draw: Draw): (ServerState, Option<octets>)
  {
    var s' := s.(groups := out.groups, log := s.log + out.events);
    match out.reply
    case Ok(None) => (s'.(peers := s.peers[ic := out.r]), None)
    case Ok(Some(resp)) => (s'.(peers := s.peers[ic := out.r.(lastReq := msg, lastResp := resp)]), Some(resp))
    case Err(f) =>
      var keys := if out.r.stage == Established then out.r.keys else None;
      var resp := if f.Refused? then Some(Informational(cfg.c, keys, out.r.ic, out.r.rc, f.notify, draw.msgId)) else None;
      (s'.(peers := if out.r.stage != Established then s.peers - {ic} else s.peers[ic := out.r]), resp)
  }

  /** The first datagram of a new exchange; `kept` is what expiry leaves of the
      peers. */
  function BeginIn(
    cfg: ServerConfig, s: ServerState, h: Header, msg: octets, addr: Addr, now: nat, draw: Draw, kept: Peers)
    : (ServerState, Option<octets>)
    requires Configured(cfg) && h.rc == NO_COOKIE
  {
    var r := NewResponder(s.sessions, addr, h.ic, draw.rc, now);
    var s' := s.(peers := kept[h.ic := r], sessions := s.sessions + 1);
    Settle(cfg, s', h.ic, ResponderStep(cfg, r, h, msg, s.groups, draw), msg, draw)
  }

  /** One datagram; `kept` is what expiry leaves of the peers. */
  function HandleIn(
    cfg: ServerConfig, s: ServerState, msg: octets, addr: Addr, now: nat, draw: Draw, kept: Peers)
    : (ServerState, Option<octets>)
    requires Configured(cfg) && ServerOk(cfg, s) && draw.rc != NO_COOKIE
  {
    match HeaderOf(msg)
    case Err(_) => (s, None)
    case Ok(h) =>
      if h.ic !in s.peers then
        if h.exchange != XCHG_MAIN || h.rc != NO_COOKIE then (s, None)
        else BeginIn(cfg, s, h, msg, addr, now, draw, kept)
      else
        var r := s.peers[h.ic];
        if r.addr != addr then (s, None)
        else if r.lastReq != [] && msg == r.lastReq then
          (s.(peers := s.peers[h.ic := r.(touched := now)]), Some(r.lastResp))
        else if h.rc != r.rc then (s, None)
        else Settle(cfg, s, h.ic, ResponderStep(cfg, r.(touched := now), h, msg, s.groups, draw), msg, draw)
  }

  class Server {
    const cfg: ServerConfig
    var groups: GroupTable
    var peers: Peers
    var sessions: nat
    var log: seq<Event>

    ghost function Now(): ServerState
      reads this
    {
      ServerState(groups, peers, sessions, log)
    }

    ghost predicate Valid()
      reads this
    {
      Configured(cfg) && ServerOk(cfg, Now())
    }

    constructor (cfg: ServerConfig, groups: GroupTable)
      requires Configured(cfg)
      ensures Valid() && this.cfg == cfg && Now() == ServerState(groups, map[], 0, [])
    {
      this.cfg, this.groups, this.peers, this.sessions, this.log := cfg, groups, map[], 0, [];
    }

    /** Drops the states idle past the TTL, and the oldest when there are too
        many. */
    method Expire(now: nat)
      modifies this`peers
      ensures Expired(old(peers), now, peers)
    {
      ghost var before := peers;
      peers := map ic | ic in peers && IsRecent(peers[ic], now) :: peers[ic];
      while |peers| >= MAX_PEERS
        invariant forall ic :: ic in peers ==> ic in before && peers[ic] == before[ic] && IsRecent(peers[ic], now)
        invariant forall ic :: ic in before && ic !in peers && IsRecent(before[ic], now) ==>
                    |peers| >= MAX_PEERS - 1 && forall other :: other in peers ==> before[ic].touched <= peers[other].touched
        decreases |peers|
      {
        var oldest := Oldest(peers);
        peers := peers - {oldest};
      }
    }

    /** Takes a responder's step and records what came of it: a failed exchange
        is over, and its state goes. */
    method Advance(ic: cookie, r: Responder, h: Header, msg: octets, draw: Draw) returns (resp: Option<octets>)
      requires Configured(cfg) && ic in peers && |peers| <= MAX_PEERS && r.ic == ic && r.rc != NO_COOKIE
      requires forall k :: k in peers && k != ic ==> PeerOk(cfg, k, peers[k])
      requires ResponderOk(cfg, r) && (h.rc != NO_COOKIE ==> Negotiated(cfg, r))
      requires h.rc == NO_COOKIE ==> r.stage == AwaitingKe && h.exchange == XCHG_MAIN
      modifies this
      ensures Valid() && sessions == old(sessions)
      ensures (Now(), resp) == Settle(cfg, old(Now()), ic, ResponderStep(cfg, r, h, msg, old(groups), draw), msg, draw)
    {
      hide ResponderStep, Informational, PeerOk, ResponderOk, Negotiated, Configured;
      SettleIsOk(cfg, Now(), ic, r, h, msg, draw);
      var out := ResponderStep(cfg, r, h, msg, groups, draw);
      groups, log := out.groups, log + out.events;
      if out.reply.Ok? {
        var r' := out.r;
        resp := out.reply.value;
        if resp.Some? {
          r' := r'.(lastReq := msg, lastResp := resp.value);
        }
        peers := peers[ic := r'];
      } else {
        resp := None;
        if out.reply.error.Refused? {
          var keys := if out.r.stage == Established then out.r.keys else None;
          resp := Some(Informational(cfg.c, keys, out.r.ic, out.r.rc, out.reply.error.notify, draw.msgId));
        }
        if out.r.stage != Established {
          peers := peers - {ic};
        } else {
          peers := peers[ic := out.r];
        }
      }
    }

    /** Makes room for a new exchange and starts it. */
    method Admit(addr: Addr, now: nat, ic: cookie, rc: cookie) returns (r: Responder, ghost kept: Peers)
      requires Valid() && rc != NO_COOKIE
      modifies this
      ensures Expired(old(peers), now, kept) && r == NewResponder(old(sessions), addr, ic, rc, now)
      ensures Now() == old(Now()).(peers := kept[ic := r], sessions := old(sessions) + 1)
      ensures |peers| <= MAX_PEERS && ResponderOk(cfg, r)
      ensures forall k :: k in peers && k != ic ==> PeerOk(cfg, k, peers[k])
    {
      hide Expired, ResponderOk, Negotiated, Configured, PeerOk, NewResponder;
      Expire(now);
      kept := peers;
      r := NewResponder(sessions, addr, ic, rc, now);
      NewIsOk(cfg, old(Now()), kept, now, sessions, addr, ic, rc);
      peers := peers[ic := r];
      sessions := sessions + 1;
    }

    /** A new exchange. */
    method Begin(addr: Addr, now: nat, h: Header, msg: octets, draw: Draw)
      returns (resp: Option<octets>, ghost kept: Peers)
      requires Valid() && draw.rc != NO_COOKIE && h.exchange == XCHG_MAIN && h.rc == NO_COOKIE
      modifies this
      ensures Valid() && Expired(old(peers), now, kept)
      ensures (Now(), resp) == BeginIn(cfg, old(Now()), h, msg, addr, now, draw, kept)
    {
      hide ResponderStep, Expired, Settle, ResponderOk, Negotiated, Configured, PeerOk, ServerOk;
      var r: Responder;
      r, kept := Admit(addr, now, h.ic, draw.rc);
      resp := Advance(h.ic, r, h, msg, draw);
    }

    /** Processes one datagram and returns the reply, if any. */
    method Handle(msg: octets, addr: Addr, now: nat, draw: Draw) returns (resp: Option<octets>, ghost kept: Peers)
      requires Valid() && draw.rc != NO_COOKIE
      modifies this
      ensures Valid()
      ensures (Now(), resp) == HandleIn(cfg, old(Now()), msg, addr, now, draw, kept)
      ensures Expired(old(peers), now, kept) || kept == old(peers)
    {
      hide ResponderStep, Expired, Settle, ResponderOk, Negotiated, Configured;
      kept := peers;
      var h := HeaderOf(msg);
      if h.Err? {
        return None, kept;
      }
      var ic := h.value.ic;
      if ic !in peers {
        if h.value.exchange != XCHG_MAIN || h.value.rc != NO_COOKIE {
          return None, kept;
        }
        resp, kept := Begin(addr, now, h.value, msg, draw);
        return;
      }
      var r := peers[ic];
      if r.addr != addr {
        return None, kept;
      }
      if r.lastReq != [] && msg == r.lastReq {
        peers := peers[ic := r.(touched := now)];
        TouchIsOk(cfg, old(Now()), ic, now);
        return Some(r.lastResp), kept;
      }
      if h.value.rc != r.rc {
        return None, kept;
      }
      TouchIsOk(cfg, Now(), ic, now);
      TouchStep(cfg, r, now);
      resp := Advance(ic, r.(touched := now), h.value, msg, draw);
    }
  }

  lemma TouchStep(cfg: ServerConfig, r: Responder, now: nat)
    ensures ResponderOk(cfg, r.(touched := now)) == ResponderOk(cfg, r)
    ensures Negotiated(cfg, r.(touched := now)) == Negotiated(cfg, r)
  {
  }

  method Oldest(peers: Peers) returns (oldest: cookie)
    requires |peers| > 0
    ensures oldest in peers && forall ic :: ic in peers ==> peers[oldest].touched <= peers[ic].touched
  {
    var rest := peers.Keys;
    oldest :| oldest in rest;
    rest := rest - {oldest};
    while rest != {}
      invariant rest <= peers.Keys && oldest in peers
      invariant forall ic :: ic in peers.Keys - rest ==> peers[oldest].touched <= peers[ic].touched
      decreases |rest|
    {
      var ic :| ic in rest;
      if peers[ic].touched < peers[oldest].touched { oldest := ic; }
      rest := rest - {ic};
    }
  }

  // ---- Every step keeps the invariant.

  lemma PullKeeps(cfg: ServerConfig, r: Responder, h: Header, msg: octets, groups: GroupTable, draw: Draw)
    requires ResponderOk(cfg, r) && r.stage == Established
    ensures var out := Pull(cfg, r, h, msg, groups, draw);
            ResponderOk(cfg, out.r) && out.r == r.(pulls := out.r.pulls)
  {
    hide PullStep, FreshPull;
  }

  lemma StepKeeps(cfg: ServerConfig, r: Responder, h: Header, msg: octets, groups: GroupTable, draw: Draw)
    requires Configured(cfg) && ResponderOk(cfg, r)
    requires h.rc != NO_COOKIE ==> Negotiated(cfg, r)
    requires h.rc == NO_COOKIE ==> r.stage == AwaitingKe
    ensures var out := ResponderStep(cfg, r, h, msg, groups, draw);
            && out.r.ic == r.ic && out.r.rc == r.rc && out.r.session == r.session && out.r.addr == r.addr
            && out.r.touched == r.touched
            && (out.reply.Ok? || out.r.stage == Established ==> ResponderOk(cfg, out.r))
            && (h.rc != NO_COOKIE && (out.reply.Ok? || out.r.stage == Established) ==> Negotiated(cfg, out.r))
            && (h.rc == NO_COOKIE && h.exchange == XCHG_MAIN ==>
                  out.r.stage == AwaitingKe && out.events == [] && out.groups == groups
                  && (out.reply.Ok? ==> Negotiated(cfg, out.r)))
  {
    hide MainAuth, MainKe, MainSa, Pull;
    if h.exchange == XCHG_MAIN && r.stage == AwaitingKe && h.rc == NO_COOKIE {
      SaKeeps(cfg, r, msg);
    } else if h.exchange == XCHG_MAIN && r.stage == AwaitingKe {
      KeKeeps(cfg, r, msg, draw);
    } else if h.exchange == XCHG_PULL && r.stage == Established {
      PullKeeps(cfg, r, h, msg, groups, draw);
    }
  }

  /** A failed message 1 changes nothing. */
  lemma SaKeeps(cfg: ServerConfig, r: Responder, msg: octets)
    ensures MainSa(cfg, r, msg).1.Err? ==> MainSa(cfg, r, msg).0 == r
  {
    hide Open, ParsePhase1Sa, Choose, Message;
  }

  /** A failed message 3 leaves the stage as it was. */
  lemma KeKeeps(cfg: ServerConfig, r: Responder, msg: octets, draw: Draw)
    ensures MainKe(cfg, r, msg, draw).1.Err? ==> MainKe(cfg, r, msg, draw).0 == r.(skeyid := MainKe(cfg, r, msg, draw).0.skeyid)
  {
    hide Open, Derive, Message, Skeyid;
  }

  lemma SettleIsOk(cfg: ServerConfig, s: ServerState, ic: cookie, r: Responder, h: Header, msg: octets, draw: Draw)
    requires Configured(cfg) && ic in s.peers && |s.peers| <= MAX_PEERS && r.ic == ic && r.rc != NO_COOKIE
    requires forall k :: k in s.peers && k != ic ==> PeerOk(cfg, k, s.peers[k])
    requires ResponderOk(cfg, r) && (h.rc != NO_COOKIE ==> Negotiated(cfg, r))
    requires h.rc == NO_COOKIE ==> r.stage == AwaitingKe && h.exchange == XCHG_MAIN
    ensures ServerOk(cfg, Settle(cfg, s, ic, ResponderStep(cfg, r, h, msg, s.groups, draw), msg, draw).0)
  {
    hide ResponderStep, Informational, Negotiated, ResponderOk;
    StepKeeps(cfg, r, h, msg, s.groups, draw);
    var out := ResponderStep(cfg, r, h, msg, s.groups, draw);
    RecordIsOk(cfg, out.r, msg, if out.reply.Ok? && out.reply.value.Some? then out.reply.value.value else []);
  }

  lemma RecordIsOk(cfg: ServerConfig, r: Responder, req: octets, resp: octets)
    ensures ResponderOk(cfg, r.(lastReq := req, lastResp := resp)) == ResponderOk(cfg, r)
    ensures Negotiated(cfg, r.(lastReq := req, lastResp := resp)) == Negotiated(cfg, r)
  {
  }

  lemma NewIsOk(
    cfg: ServerConfig, s: ServerState, kept: Peers, now: nat, session: nat, addr: Addr, ic: cookie, rc: cookie)
    requires ServerOk(cfg, s) && Expired(s.peers, now, kept) && rc != NO_COOKIE
    ensures var r := NewResponder(session, addr, ic, rc, now);
            && ResponderOk(cfg, r) && |kept[ic := r]| <= MAX_PEERS
            && forall k :: k in kept && k != ic ==> PeerOk(cfg, k, kept[k])
  {
    hide PeerOk, IsRecent;
    OneMorePeer(kept, ic, NewResponder(session, addr, ic, rc, now));
  }

  lemma OneMorePeer(peers: Peers, ic: cookie, r: Responder)
    ensures |peers[ic := r]| <= |peers| + 1
  {
    assert peers[ic := r].Keys == peers.Keys + {ic};
    assert |peers.Keys + {ic}| <= |peers.Keys| + 1;
  }

  lemma TouchIsOk(cfg: ServerConfig, s: ServerState, ic: cookie, now: nat)
    requires ServerOk(cfg, s) && ic in s.peers
    ensures ServerOk(cfg, s.(peers := s.peers[ic := s.peers[ic].(touched := now)]))
  {
    assert s.peers[ic := s.peers[ic].(touched := now)].Keys == s.peers.Keys;
  }
}
