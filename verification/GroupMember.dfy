/** A group member's registration (src/gdoi/member.rs): main mode as initiator,
    then GROUPKEY-PULL. Each request is built from the reply before it. */
module GroupMember {
  import opened Octets
  import opened Isakmp
  import opened IkeCrypto
  import opened Exchange
  import opened Teks
  import opened KeyServer

  /** `auth` is the method the credentials call for; `authorizeServer` says
      whether an authenticated key server may hand out keys. */
  datatype MemberConfig = MemberConfig(
    c: Crypto, creds: Credentials, psk: octets, auth: u16, suites: seq<Suite>, authorizeServer: Peer -> bool,
    local: Option<octets>, server: Addr)

  /** What a configuration is checked for before anything is sent. */
  predicate Checked(m: MemberConfig)
  {
    && AllValid(m.suites) && m.suites != []
    && if m.psk != [] then m.auth == AUTH_PSK && m.creds.key.None?
       else SignatureMethod(m.auth) && m.creds.key.Some? && m.creds.certificates != [] && m.creds.roots != []
  }

  // ---- Waiting for a reply.

  /** What becomes of a datagram while a reply is awaited: it is the reply, it
      refuses the exchange, or it is ignored. */
  datatype Heard = Taken(msg: octets) | Refusal(notify: u16) | Ignored

  function Hear(c: Crypto, keys: Option<Keys>, ic: cookie, accept: Header -> bool, msg: octets): Heard
  {
    match HeaderOf(msg)
    case Err(_) => Ignored
    case Ok(h) =>
      if h.ic != ic then Ignored
      else if h.exchange == XCHG_INFO then
        match ReadInformational(c, keys, msg)
        case Ok(t) => Refusal(t)
        case Err(_) => Ignored
      else if accept(h) then Taken(msg)
      else Ignored
  }

  /** The first datagram of a window that settles it. */
  function HearAll(c: Crypto, keys: Option<Keys>, ic: cookie, accept: Header -> bool, window: seq<octets>): Heard
  {
    if window == [] then Ignored
    else
      var first := Hear(c, keys, ic, accept, window[0]);
      if first.Ignored? then HearAll(c, keys, ic, accept, window[1..]) else first
  }

  function ResultOf(h: Heard): Result<octets, Fault>
    requires !h.Ignored?
  {
    if h.Taken? then Ok(h.msg) else Err(Notified(h.notify))
  }

  /** `windows` are the datagrams that arrive after each send, up to the
      deadline for sending again. */
  function RoundTrip(c: Crypto, keys: Option<Keys>, ic: cookie, accept: Header -> bool, windows: seq<seq<octets>>)
    : Result<octets, Fault>
  {
    if windows == [] then Err(Timeout)
    else
      var heard := HearAll(c, keys, ic, accept, windows[0]);
      if heard.Ignored? then RoundTrip(c, keys, ic, accept, windows[1..]) else ResultOf(heard)
  }

  /** Sends the request until a reply is taken or refused, at most once for
      each window; `sent` are the copies sent. */
  method DoRoundTrip(
    c: Crypto, keys: Option<Keys>, ic: cookie, accept: Header -> bool, req: octets, windows: seq<seq<octets>>)
    returns (r: Result<octets, Fault>, sent: seq<octets>)
    ensures r == RoundTrip(c, keys, ic, accept, windows)
    ensures |sent| <= |windows| && forall i :: 0 <= i < |sent| ==> sent[i] == req
    ensures r == Err(Timeout) ==> |sent| == |windows|
  {
    hide Hear;
    sent := [];
    assert windows[0..] == windows;
    for attempt := 0 to |windows|
      invariant |sent| == attempt && forall i :: 0 <= i < |sent| ==> sent[i] == req
      invariant RoundTrip(c, keys, ic, accept, windows) == RoundTrip(c, keys, ic, accept, windows[attempt..])
    {
      sent := sent + [req];
      var window := windows[attempt];
      assert windows[attempt..][1..] == windows[attempt + 1..];
      assert window[0..] == window;
      for i := 0 to |window|
        invariant HearAll(c, keys, ic, accept, window) == HearAll(c, keys, ic, accept, window[i..])
      {
        assert window[i..][1..] == window[i + 1..];
        var heard := Hear(c, keys, ic, accept, window[i]);
        if !heard.Ignored? {
          return ResultOf(heard), sent;
        }
      }
    }
    return Err(Timeout), sent;
  }

  // ---- Main mode.

  function MainHeader(ic: cookie, rc: cookie): Header { Header(ic, rc, 0, XCHG_MAIN, 0, 0, 0) }

  function OwnSa(m: MemberConfig): octets { Phase1SaBody(m.suites, m.auth) }

  function FirstRequest(m: MemberConfig, ic: cookie): octets
  {
    Message(MainHeader(ic, NO_COOKIE), [Payload(P_SA, OwnSa(m))])
  }

  predicate AcceptSa(h: Header) { h.exchange == XCHG_MAIN && h.rc != NO_COOKIE && !Encrypted(h) }

  predicate AcceptKe(rc: cookie, h: Header) { h.exchange == XCHG_MAIN && h.rc == rc && !Encrypted(h) && h.next != P_SA }

  predicate AcceptAuth(rc: cookie, h: Header) { h.exchange == XCHG_MAIN && h.rc == rc && Encrypted(h) }

  predicate AcceptPull(rc: cookie, mid: u32, h: Header)
  {
    h.exchange == XCHG_PULL && h.msgId == mid && h.rc == rc && Encrypted(h)
  }

  /** Whether a transform is one of those in the SA the member sent. */
  predicate Offered(sa: octets, body: octets)
  {
    var ts := ParsePhase1Sa(sa);
    ts.Ok? && exists i :: 0 <= i < |ts.value| && ts.value[i].body == body
  }

  /** The suite is chosen: a key exchange value and a nonce go out. */
  datatype Chosen = Chosen(ic: cookie, rc: cookie, suite: Suite, secret: octets, ni: octets)

  function OnSa(m: MemberConfig, ic: cookie, resp: octets, secret: octets, ni: octets): Result<(Chosen, octets), Fault>
  {
    match Open(m.c, None, resp, [])
    case Err(f) => Err(f)
    case Ok(o) =>
      match Find(o.payloads, P_SA)
      case None => Err(Malformed)
      case Some(sa) =>
        match ParsePhase1Sa(sa.body)
        case Err(f) => Err(f)
        case Ok(ts) =>
          if |ts| != 1 || !Offered(OwnSa(m), ts[0].body) then Err(Auth)
          else
            var x := Chosen(ic, o.header.rc, ts[0].suite, secret, ni);
            Ok((x, Message(MainHeader(ic, x.rc),
                           [Payload(P_KE, m.c.public(x.suite.group, secret)), Payload(P_NONCE, ni)])))
  }

  /** The keys are derived: the member's authentication goes out. */
  datatype Keyed = Keyed(
    ic: cookie, rc: cookie, gxi: octets, gxr: octets, skeyid: octets, keys: Keys, iv: block)

  function MemberHash(m: MemberConfig, x: Keyed, id: IdPayload): octets
  {
    m.c.prf(x.keys.hash, x.skeyid, x.gxi + x.gxr + x.ic + x.rc + OwnSa(m) + IdBody(id))
  }

  function ServerHash(m: MemberConfig, x: Keyed, id: IdPayload): octets
  {
    m.c.prf(x.keys.hash, x.skeyid, x.gxr + x.gxi + x.rc + x.ic + OwnSa(m) + IdBody(id))
  }

  function DeriveMember(m: MemberConfig, x: Chosen, gxr: octets, nr: octets): Result<Keyed, Fault>
  {
    match m.c.shared(x.suite.group, x.secret, gxr)
    case None => Err(Malformed)
    case Some(gxy) =>
      var hf := HashOf(x.suite);
      var gxi := m.c.public(x.suite.group, x.secret);
      var skeyid := Skeyid(m.c, hf, m.auth, m.psk, x.ni, nr, gxy);
      match Derive(m.c, x.suite, skeyid, gxy, x.ic, x.rc)
      case Err(f) => Err(f)
      case Ok(keys) => Ok(Keyed(x.ic, x.rc, gxi, gxr, skeyid, keys, Phase1Iv(m.c, hf, gxi, gxr)))
  }

  /** The payloads that authenticate the member. */
  function MemberProof(m: MemberConfig, x: Keyed): Result<seq<Payload>, Fault>
    requires m.auth != AUTH_PSK ==> m.creds.key.Some?
  {
    match OwnId(m.c, m.creds, m.local)
    case Err(f) => Err(f)
    case Ok(id) =>
      var hash := MemberHash(m, x, id);
      if m.auth == AUTH_PSK then Ok([Payload(P_ID, IdBody(id)), Payload(P_HASH, hash)])
      else
        match Sign(m.c, m.auth, m.creds.key.value, hash)
        case Err(f) => Err(f)
        case Ok(sig) => Ok([Payload(P_ID, IdBody(id))] + CertPayloads(m.creds.certificates) + [Payload(P_SIG, sig)])
  }

  function OnKe(m: MemberConfig, x: Chosen, resp: octets): Result<(Keyed, octets, block), Fault>
    requires Checked(m)
  {
    match Open(m.c, None, resp, [])
    case Err(f) => Err(f)
    case Ok(o) =>
      var ke, nonce := Find(o.payloads, P_KE), Find(o.payloads, P_NONCE);
      if ke.None? || nonce.None? || |nonce.value.body| < 8 || |nonce.value.body| > 256 then Err(Malformed)
      else
        match DeriveMember(m, x, ke.value.body, nonce.value.body)
        case Err(f) => Err(f)
        case Ok(k) =>
          match MemberProof(m, k)
          case Err(f) => Err(f)
          case Ok(ps) =>
            var (msg, next) := Sealed(m.c, k.keys, MainHeader(k.ic, k.rc), ps, k.iv);
            Ok((k, msg, next))
  }

  /** Who the key server is, if its authentication holds. */
  function CheckServer(m: MemberConfig, x: Keyed, ps: seq<Payload>): Result<Peer, Fault>
  {
    match Find(ps, P_ID)
    case None => Err(Malformed)
    case Some(idp) =>
      match IdOf(idp.body)
      case Err(f) => Err(f)
      case Ok(id) =>
        var hash := ServerHash(m, x, id);
        if m.auth == AUTH_PSK then
          var hp := Find(ps, P_HASH);
          if hp.Some? && hp.value.body == hash then Ok(Peer(m.server, id.kind, id.data, None)) else Err(Auth)
        else
          match CertsOf(ps)
          case Err(f) => Err(f)
          case Ok(certs) =>
            match VerifyPeer(m.c, m.creds, id, certs)
            case Err(f) => Err(f)
            case Ok(key) =>
              var sp := Find(ps, P_SIG);
              if sp.None? then Err(Malformed)
              else if !Verifies(m.c, m.auth, key, hash, sp.value.body) then Err(Auth)
              else Ok(Peer(m.server, id.kind, id.data, Some(certs[0])))
  }

  /** Phase 1 is complete. */
  datatype Secured = Secured(ic: cookie, rc: cookie, keys: Keys, server: Peer)

  function OnAuth(m: MemberConfig, x: Keyed, iv: block, resp: octets): Result<Secured, Fault>
  {
    match Open(m.c, Some(x.keys), resp, iv)
    case Err(f) => Err(f)
    case Ok(o) =>
      match CheckServer(m, x, o.payloads)
      case Err(f) => Err(f)
      case Ok(peer) =>
        if !m.authorizeServer(peer) then Err(Auth)
        else Ok(Secured(x.ic, x.rc, x.keys.(last := Some(o.nextIv)), peer))
  }

  // ---- GROUPKEY-PULL.

  function PullHeader(x: Secured, mid: u32): Header { Header(x.ic, x.rc, 0, XCHG_PULL, 0, mid, 0) }

  /** HASH(1), a nonce and the group's identity; and the IV after them. */
  function PullRequestMessage(m: MemberConfig, x: Secured, g: GroupId, mid: u32, ni: octets): Result<(octets, block), Fault>
  {
    match GroupIdPayload(g)
    case Err(f) => Err(f)
    case Ok(id) =>
      var rest := [Payload(P_NONCE, ni), Payload(P_ID, IdBody(id))];
      var hash := PullMac(m.c, x.keys, mid, EncodeChain(rest, P_NONE));
      Ok(Sealed(m.c, x.keys, PullHeader(x, mid), [Payload(P_HASH, hash)] + rest, Phase2Iv(m.c, x.keys, mid)))
  }

  /** The policy is known: HASH(3) proves the server's nonce was received. */
  datatype Informed = Informed(nr: octets, policy: seq<Tek>)

  function OnPolicy(m: MemberConfig, x: Secured, mid: u32, ni: octets, iv: block, resp: octets)
    : Result<(Informed, octets, block), Fault>
  {
    match Open(m.c, Some(x.keys), resp, iv)
    case Err(f) => Err(f)
    case Ok(o) =>
      match Hashed(o)
      case Err(f) => Err(f)
      case Ok((hp, rest, covered)) =>
        if hp.body != PullMac(m.c, x.keys, mid, ni + covered) then Err(Auth)
        else
          var nonce, sa := Find(rest, P_NONCE), Find(rest, P_SA);
          if nonce.None? || sa.None? || |nonce.value.body| < 8 || |nonce.value.body| > 128 then Err(Malformed)
          else
            match SaOf(sa.value.body)
            case Err(f) => Err(f)
            case Ok(policy) =>
              if policy == [] then Err(Policy)
              else
                var nr := nonce.value.body;
                var hash := PullMac(m.c, x.keys, mid, ni + nr);
                var (msg, next) := Sealed(m.c, x.keys, PullHeader(x, mid), [Payload(P_HASH, hash)], o.nextIv);
                Ok((Informed(nr, policy), msg, next))
  }

  function OnKeys(m: MemberConfig, x: Secured, mid: u32, ni: octets, y: Informed, iv: block, resp: octets)
    : Result<seq<Tek>, Fault>
  {
    match Open(m.c, Some(x.keys), resp, iv)
    case Err(f) => Err(f)
    case Ok(o) =>
      match Hashed(o)
      case Err(f) => Err(f)
      case Ok((hp, rest, covered)) =>
        if hp.body != PullMac(m.c, x.keys, mid, ni + y.nr + covered) then Err(Auth)
        else
          match Find(rest, P_KD)
          case None => Err(Malformed)
          case Some(kd) =>
            match KdOf(kd.body)
            case Err(f) => Err(f)
            case Ok(material) => Join(y.policy, material)
  }

  // ---- The whole registration.

  /** What the member draws at random. */
  datatype MemberDraw = MemberDraw(ic: cookie, secret: octets, ni: octets, mid: u32, pullNi: octets)

  /** How far a registration has come: which reply is awaited, with what is
      needed to take it. */
  datatype Progress =
    | Opening
    | Exchanging(chosen: Chosen)
    | Proving(keyed: Keyed, iv: block)
    | Asking(secured: Secured, iv: block)
    | Confirming(secured: Secured, informed: Informed, iv: block)
    | Done(secured: Secured, teks: seq<Tek>)

  function KeysIn(p: Progress): Option<Keys>
  {
    match p
    case Proving(k, _) => Some(k.keys)
    case Asking(x, _) => Some(x.keys)
    case Confirming(x, _, _) => Some(x.keys)
    case _ => None
  }

  function Accepts(d: MemberDraw, p: Progress): Header -> bool
  {
    match p
    case Opening => h => AcceptSa(h)
    case Exchanging(x) => h => AcceptKe(x.rc, h)
    case Proving(k, _) => h => AcceptAuth(k.rc, h)
    case Asking(x, _) => h => AcceptPull(x.rc, d.mid, h)
    case Confirming(x, _, _) => h => AcceptPull(x.rc, d.mid, h)
    case Done(_, _) => h => false
  }

  /** What a taken reply leads to, and the next request. */
  function OnReply(m: MemberConfig, g: GroupId, d: MemberDraw, p: Progress, reply: octets)
    : (r: Result<(Progress, octets), Fault>)
    requires Checked(m) && !p.Done?
  {
    match p
    case Opening =>
      (match OnSa(m, d.ic, reply, d.secret, d.ni)
       case Err(f) => Err(f)
       case Ok((x, req)) => Ok((Exchanging(x), req)))
    case Exchanging(x) =>
      (match OnKe(m, x, reply)
       case Err(f) => Err(f)
       case Ok((k, req, iv)) => Ok((Proving(k, iv), req)))
    case Proving(k, iv) =>
      (match OnAuth(m, k, iv, reply)
       case Err(f) => Err(f)
       case Ok(x) =>
         match PullRequestMessage(m, x, g, d.mid, d.pullNi)
         case Err(f) => Err(f)
         case Ok((req, next)) => Ok((Asking(x, next), req)))
    case Asking(x, iv) =>
      (match OnPolicy(m, x, d.mid, d.pullNi, iv, reply)
       case Err(f) => Err(f)
       case Ok((y, req, next)) => Ok((Confirming(x, y, next), req)))
    case Confirming(x, y, iv) =>
      (match OnKeys(m, x, d.mid, d.pullNi, y, iv, reply)
       case Err(f) => Err(f)
       case Ok(teks) => Ok((Done(x, teks), [])))
  }

  /** A registration given what arrives: `heard[k]` are the windows of round
      `k`, at most one for each attempt allowed. */
  function MemberRun(m: MemberConfig, g: GroupId, d: MemberDraw, p: Progress, heard: seq<seq<seq<octets>>>)
    : Result<Progress, Fault>
    requires Checked(m)
    decreases |heard|
  {
    if p.Done? then Ok(p)
    else if heard == [] then Err(Timeout)
    else
      match RoundTrip(m.c, KeysIn(p), d.ic, Accepts(d, p), heard[0])
      case Err(f) => Err(f)
      case Ok(reply) =>
        match OnReply(m, g, d, p, reply)
        case Err(f) => Err(f)
        case Ok((p', _)) => MemberRun(m, g, d, p', heard[1..])
  }

  lemma RunStep(m: MemberConfig, g: GroupId, d: MemberDraw, p: Progress, heard: seq<seq<seq<octets>>>, k: nat)
    requires Checked(m) && !p.Done? && k < |heard|
    ensures var run := MemberRun(m, g, d, p, heard[k..]);
            var r := RoundTrip(m.c, KeysIn(p), d.ic, Accepts(d, p), heard[k]);
            if r.Err? then run == Err(r.error)
            else if OnReply(m, g, d, p, r.value).Err? then run == Err(OnReply(m, g, d, p, r.value).error)
            else run == MemberRun(m, g, d, OnReply(m, g, d, p, r.value).value.0, heard[k + 1..])
  {
    hide RoundTrip, OnReply, Accepts;
    assert heard[k..][1..] == heard[k + 1..];
  }

  /** The initiator: its cookies and keys are set as the replies come in. */
  class Initiator {
    const m: MemberConfig
    var ic: cookie
    var rc: cookie
    var keys: Option<Keys>

    constructor (m: MemberConfig)
      ensures this.m == m && ic == NO_COOKIE && rc == NO_COOKIE && keys == None
    {
      this.m, ic, rc, keys := m, NO_COOKIE, NO_COOKIE, None;
    }

    /** Main mode; `p` is what the pull starts from. */
    method MainMode(g: GroupId, d: MemberDraw, heard: seq<seq<seq<octets>>>)
      returns (r: Result<Progress, Fault>, req: octets)
      requires Checked(m) && keys == None && |heard| == 5
      modifies this
      ensures ic == d.ic
      ensures r.Err? ==> MemberRun(m, g, d, Opening, heard) == Err(r.error)
      ensures r.Ok? ==> r.value.Asking? && keys == Some(r.value.secured.keys)
                        && MemberRun(m, g, d, Opening, heard) == MemberRun(m, g, d, r.value, heard[3..])
    {
      hide RoundTrip, OnSa, OnKe, OnAuth, PullRequestMessage, MemberRun, Accepts, FirstRequest;
      assert heard[0..] == heard;
      ic := d.ic;
      RunStep(m, g, d, Opening, heard, 0);
      var reply, sent := DoRoundTrip(m.c, keys, ic, Accepts(d, Opening), FirstRequest(m, ic), heard[0]);
      if reply.Err? { return Err(reply.error), []; }
      var sa := OnSa(m, ic, reply.value, d.secret, d.ni);
      if sa.Err? { return Err(sa.error), []; }
      var x := sa.value.0;
      rc := x.rc;

      RunStep(m, g, d, Exchanging(x), heard, 1);
      reply, sent := DoRoundTrip(m.c, keys, ic, Accepts(d, Exchanging(x)), sa.value.1, heard[1]);
      if reply.Err? { return Err(reply.error), []; }
      var ke := OnKe(m, x, reply.value);
      if ke.Err? { return Err(ke.error), []; }
      var k, iv := ke.value.0, ke.value.2;
      keys := Some(k.keys);

      RunStep(m, g, d, Proving(k, iv), heard, 2);
      reply, sent := DoRoundTrip(m.c, keys, ic, Accepts(d, Proving(k, iv)), ke.value.1, heard[2]);
      if reply.Err? { return Err(reply.error), []; }
      var peer := OnAuth(m, k, iv, reply.value);
      if peer.Err? { return Err(peer.error), []; }
      keys := Some(peer.value.keys);
      var ask := PullRequestMessage(m, peer.value, g, d.mid, d.pullNi);
      if ask.Err? { return Err(ask.error), []; }
      return Ok(Asking(peer.value, ask.value.1)), ask.value.0;
    }

    /** One registration: main mode, then the pull. */
    method Register(g: GroupId, d: MemberDraw, heard: seq<seq<seq<octets>>>) returns (r: Result<Progress, Fault>)
      requires Checked(m) && keys == None && |heard| == 5
      modifies this
      ensures r == MemberRun(m, g, d, Opening, heard)
    {
      hide RoundTrip, OnPolicy, OnKeys, MemberRun, Accepts;
      var begun, req := MainMode(g, d, heard);
      if begun.Err? { return begun; }
      var p := begun.value;
      RunStep(m, g, d, p, heard, 3);
      var reply, sent := DoRoundTrip(m.c, keys, ic, Accepts(d, p), req, heard[3]);
      if reply.Err? { return Err(reply.error); }
      var policy := OnPolicy(m, p.secured, d.mid, d.pullNi, p.iv, reply.value);
      if policy.Err? { return Err(policy.error); }
      var q := Confirming(p.secured, policy.value.0, policy.value.2);
      RunStep(m, g, d, q, heard, 4);
      reply, sent := DoRoundTrip(m.c, keys, ic, Accepts(d, q), policy.value.1, heard[4]);
      if reply.Err? { return Err(reply.error); }
      var teks := OnKeys(m, p.secured, d.mid, d.pullNi, policy.value.0, q.iv, reply.value);
      if teks.Err? { return Err(teks.error); }
      RunEnds(m, g, d, p.secured, teks.value, heard[5..]);
      return Ok(Done(p.secured, teks.value));
    }
  }

  lemma RunEnds(m: MemberConfig, g: GroupId, d: MemberDraw, x: Secured, teks: seq<Tek>, heard: seq<seq<seq<octets>>>)
    requires Checked(m)
    ensures MemberRun(m, g, d, Done(x, teks), heard) == Ok(Done(x, teks))
  {
  }
}
