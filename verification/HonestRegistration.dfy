/** The honest registration from end to end, round by round
    (src/gdoi/member.rs, src/gdoi/server.rs). */
module HonestRegistration {
  import opened Octets
  import opened Isakmp
  import opened IkeCrypto
  import opened Exchange
  import opened Teks
  import opened Groups
  import opened KeyServer
  import opened KeyServerRuns
  import opened GroupMember
  import opened Registration
  import opened HonestRun

  // ---- One round.

  lemma MessageHeader(h: Header, ps: seq<Payload>)
    requires Sendable(ps)
    ensures HeaderOf(Message(h, ps)) == Ok(Labelled(h, ps, h.flags - h.flags % 2, |EncodeChain(ps, P_NONE)|))
  {
    hide EncodeChain, HeaderOctets, HeaderOf;
    var body := EncodeChain(ps, P_NONE);
    HeaderRoundTrip(Labelled(h, ps, h.flags - h.flags % 2, |body|), body);
  }

  lemma SealedHeader(c: Crypto, k: Keys, h: Header, ps: seq<Payload>, iv: block)
    requires Sendable(ps)
    ensures var msg := Sealed(c, k, h, ps, iv).0;
            && HeaderOf(msg) == Ok(Labelled(h, ps, SealedFlags(h.flags), PaddedLength(|EncodeChain(ps, P_NONE)|)))
            && |msg| == HEADER_LEN + PaddedLength(|EncodeChain(ps, P_NONE)|)
  {
    hide EncodeChain, HeaderOctets, HeaderOf, CbcEncrypt;
    var ct := Encrypt(c, k.key, EncodeChain(ps, P_NONE), iv).0;
    HeaderRoundTrip(Labelled(h, ps, SealedFlags(h.flags), |ct|), ct);
  }

  /** One round without loss: the request is served, the reply taken. */
  lemma RoundPasses(
    m: MemberConfig, g: GroupId, d: MemberDraw, scfg: ServerConfig, s: ServerState, addr: Addr, p: Progress, req: octets,
    at: Service, rest: seq<seq<Fate>>, s': ServerState, reply: octets, p': Progress, req': octets)
    requires Checked(m) && Configured(scfg) && ServerOk(scfg, s) && !p.Done?
    requires Serve(scfg, s, req, addr, at) == (s', Some(reply))
    requires HeaderOf(reply).Ok?
    requires var h := HeaderOf(reply).value; h.ic == d.ic && h.exchange != XCHG_INFO && Accepts(d, p)(h)
    requires OnReply(m, g, d, p, reply) == Ok((p', req'))
    ensures ServerOk(scfg, s')
    ensures Proceed(m, g, d, scfg, s, addr, p, req, [[Through(at)]] + rest)
         == Proceed(m, g, d, scfg, s', addr, p', req', rest)
  {
    hide Serve, Carry, Configured, ServerOk, Checked, OnReply, RoundTrip, Windows, Accepts, HeaderOf;
    var rounds := [[Through(at)]] + rest;
    assert rounds[0] == [Through(at)] && rounds[1..] == rest;
    CarryOnce(scfg, s, req, addr, at);
    ReplyTaken(m, d, p, reply);
  }

  lemma ReplyTaken(m: MemberConfig, d: MemberDraw, p: Progress, reply: octets)
    requires HeaderOf(reply).Ok?
    requires var h := HeaderOf(reply).value; h.ic == d.ic && h.exchange != XCHG_INFO && Accepts(d, p)(h)
    ensures RoundTrip(m.c, KeysIn(p), d.ic, Accepts(d, p), Windows(1, Some(reply))) == Ok(reply)
  {
    hide HeaderOf, ReadInformational;
    var w := Windows(1, Some(reply));
    assert w[0] == [reply] && w[0][0] == reply;
    assert Hear(m.c, KeysIn(p), d.ic, Accepts(d, p), reply) == Taken(reply);
    assert HearAll(m.c, KeysIn(p), d.ic, Accepts(d, p), w[0]) == Taken(reply);
  }

  /** A peer's new message, and what the peer's responder makes of it. */
  ghost predicate Answers(
    cfg: ServerConfig, s: ServerState, msg: octets, addr: Addr, at: Service, h: Header, r: Responder, out: Outcome,
    reply: octets)
  {
    && Configured(cfg) && ServerOk(cfg, s) && at.draw.rc != NO_COOKIE
    && HeaderOf(msg) == Ok(h) && h.ic in s.peers && s.peers[h.ic] == r
    && r.addr == addr && r.lastReq != msg && h.rc == r.rc
    && ResponderOk(cfg, r.(touched := at.now)) && Negotiated(cfg, r.(touched := at.now)) && r.rc != NO_COOKIE
    && ResponderStep(cfg, r.(touched := at.now), h, msg, s.groups, at.draw) == out
    && out.reply == Ok(Some(reply))
  }

  function Answered(s: ServerState, ic: cookie, msg: octets, out: Outcome, reply: octets): ServerState
  {
    ServerState(out.groups, s.peers[ic := out.r.(lastReq := msg, lastResp := reply)], s.sessions, s.log + out.events)
  }

  /** A peer's new message is served by its responder's step. */
  lemma ServeExisting(
    cfg: ServerConfig, s: ServerState, msg: octets, addr: Addr, at: Service, h: Header, r: Responder, out: Outcome,
    reply: octets)
    requires Answers(cfg, s, msg, addr, at, h, r, out, reply)
    ensures Serve(cfg, s, msg, addr, at) == (Answered(s, h.ic, msg, out, reply), Some(reply))
  {
    hide ResponderStep, Configured, ServerOk, Expired, HeaderOf, ResponderOk, Negotiated;
  }

  lemma ServeNew(
    cfg: ServerConfig, s: ServerState, msg: octets, addr: Addr, at: Service, h: Header, r': Responder, reply: octets)
    requires Configured(cfg) && ServerOk(cfg, s) && at.draw.rc != NO_COOKIE && Expired(s.peers, at.now, at.kept)
    requires HeaderOf(msg) == Ok(h) && h.ic !in s.peers && h.exchange == XCHG_MAIN && h.rc == NO_COOKIE
    requires MainSa(cfg, NewResponder(s.sessions, addr, h.ic, at.draw.rc, at.now), msg) == (r', Ok(reply))
    ensures Serve(cfg, s, msg, addr, at)
         == (ServerState(s.groups, at.kept[h.ic := r'.(lastReq := msg, lastResp := reply)], s.sessions + 1, s.log),
             Some(reply))
  {
    hide MainSa, MainKe, MainAuth, Pull, Configured, Expired, ServerOk, HeaderOf, Informational;
    var r := NewResponder(s.sessions, addr, h.ic, at.draw.rc, at.now);
    assert s.log + [] == s.log;
    assert at.kept[h.ic := r][h.ic := r'.(lastReq := msg, lastResp := reply)]
        == at.kept[h.ic := r'.(lastReq := msg, lastResp := reply)];
  }

  /** The rest of a registration, from some progress on: the member ends with
      these TEKs, rounded to seconds. */
  ghost predicate Finishes(
    m: MemberConfig, g: GroupId, d: MemberDraw, scfg: ServerConfig, s: ServerState, addr: Addr, p: Progress, req: octets,
    rounds: seq<seq<Fate>>, s': ServerState, x: Secured, teks: seq<Tek>)
  {
    && Checked(m) && Configured(scfg) && ServerOk(scfg, s)
    && Proceed(m, g, d, scfg, s, addr, p, req, rounds) == (s', Ok(Done(x, RoundedAll(teks))))
  }

  /** What the server has recorded since, and the keys it shares with the peer. */
  predicate Leaves(s: ServerState, s': ServerState, ic: cookie, keys: Option<Keys>, suite: Suite, events: seq<Event>)
  {
    s'.log == s.log + events && ic in s'.peers && s'.peers[ic].keys == keys && s'.peers[ic].suite == suite
  }

  /** A protected message of one pull. */
  predicate IsPull(msg: octets, x: Secured, mid: u32)
  {
    match HeaderOf(msg)
    case Err(_) => false
    case Ok(h) => h.ic == x.ic && h.rc == x.rc && h.exchange == XCHG_PULL && h.msgId == mid && Encrypted(h)
  }

  // ---- The last round: HASH(3) and the keys.

  function ConfirmMessage(c: Crypto, x: Secured, mid: u32, ni: octets, nr: octets, iv: block): (octets, block)
  {
    Sealed(c, x.keys, PullHeader(x, mid), [Payload(P_HASH, PullMac(c, x.keys, mid, ni + nr))], iv)
  }

  lemma ConfirmHeader(c: Crypto, x: Secured, mid: u32, ni: octets, nr: octets, iv: block)
    requires Lawful(c)
    ensures var msg := ConfirmMessage(c, x, mid, ni, nr, iv).0;
            && IsPull(msg, x, mid)
            && |msg| == HEADER_LEN + PaddedLength(4 + MacLength(x.keys.hash))
  {
    hide Sealed, EncodeChain, PullMac, Lawful, HeaderOf, Sendable, PaddedLength;
    var hash := PullMac(c, x.keys, mid, ni + nr);
    MacIsShort(c, x.keys, mid, ni + nr);
    OneSendable(P_HASH, hash);
    OneChain(P_HASH, hash);
    SealedHeader(c, x.keys, PullHeader(x, mid), [Payload(P_HASH, hash)], iv);
  }

  /** HASH(3) is shorter than HASH(1) with a nonce and an identity. */
  lemma ConfirmIsNotAsk(c: Crypto, x: Secured, g: GroupId, mid: u32, ni: octets, nr: octets, iv: block)
    requires Lawful(c) && |ni| == NONCE_LEN
    requires GroupIdPayload(g).Ok? && NamedOnce(g) && |GroupIdPayload(g).value.data| <= 0xf000
    ensures ConfirmMessage(c, x, mid, ni, nr, iv).0 != Asked(c, x, g, mid, ni).0
  {
    hide EncodeChain, PullMac, Lawful, HeaderOf, Sealed, GroupIdPayload, NamedOnce, Sendable, Phase2Iv, PullAsk, ConfirmMessage;
    ConfirmHeader(c, x, mid, ni, nr, iv);
    AskHeader(c, x, g, mid, ni);
  }

  lemma AskHeader(c: Crypto, x: Secured, g: GroupId, mid: u32, ni: octets)
    requires Lawful(c) && |ni| == NONCE_LEN
    requires GroupIdPayload(g).Ok? && NamedOnce(g) && |GroupIdPayload(g).value.data| <= 0xf000
    ensures var msg := Asked(c, x, g, mid, ni).0;
            && IsPull(msg, x, mid)
            && |msg| == HEADER_LEN + PaddedLength(4 + MacLength(x.keys.hash) + 44 + |GroupIdPayload(g).value.data|)
  {
    hide EncodeChain, PullMac, Lawful, HeaderOf, Sealed, GroupIdPayload, NamedOnce, Sendable, Phase2Iv, PaddedLength;
    var rest := PullAsk(g, ni);
    AskReads(g, ni);
    var hash := PullMac(c, x.keys, mid, EncodeChain(rest, P_NONE));
    MacIsShort(c, x.keys, mid, EncodeChain(rest, P_NONE));
    HashSendable(hash, rest);
    HashChainLength(hash, rest);
    SealedHeader(c, x.keys, PullHeader(x, mid), [Payload(P_HASH, hash)] + rest, Phase2Iv(c, x.keys, mid));
  }

  lemma KeysReplyHeader(c: Crypto, x: Secured, mid: u32, ni: octets, nr: octets, teks: seq<Tek>, iv: block)
    requires Holdable(teks)
    ensures var msg := KeysReply(c, x, mid, ni, nr, teks, iv);
            && IsPull(msg, x, mid)
  {
    hide EncodeChain, PullMac, HeaderOf, Sealed, KdBody, Holdable, Sendable, PaddedLength;
    var kd := KdBody(teks);
    KdShort(teks);
    var out := [Payload(P_KD, kd)];
    OneSendable(P_KD, kd);
    OneChain(P_KD, kd);
    var hash := PullMac(c, x.keys, mid, ni + nr + EncodeChain(out, P_NONE));
    MacIsShort(c, x.keys, mid, ni + nr + EncodeChain(out, P_NONE));
    HashSendable(hash, out);
    SealedHeader(c, x.keys, PullHeader(x, mid), [Payload(P_HASH, hash)] + out, iv);
  }

  /** Both ends know the policy, and the member confirms it. */
  ghost predicate AtConfirm(
    m: MemberConfig, g: GroupId, d: MemberDraw, scfg: ServerConfig, s: ServerState, addr: Addr, x: Secured, r: Responder,
    p: PullState, at: Service)
  {
    && m.c == scfg.c && Lawful(m.c) && Checked(m) && Configured(scfg) && ServerOk(scfg, s) && at.draw.rc != NO_COOKIE
    && Paired(x, r) && d.ic in s.peers && s.peers[d.ic] == r && x.ic == d.ic && r.addr == addr
    && d.mid in r.pulls && r.pulls[d.mid] == p && !p.done && p.ni == d.pullNi && |p.ni| == NONCE_LEN
    && p.group == Some(g) && Holdable(p.teks)
    && var msg := ConfirmMessage(m.c, x, d.mid, p.ni, p.nr, p.iv).0; r.lastReq != msg && p.lastReq != msg
  }

  function Confirmed(r: Responder, mid: u32, g: GroupId, teks: seq<Tek>): seq<Event>
    requires r.peer.Some?
  {
    [Hash3Verified(r.session, mid), Registered(r.session, mid, r.peer.value, g, teks)]
  }

  lemma ConfirmRound(
    m: MemberConfig, g: GroupId, d: MemberDraw, scfg: ServerConfig, s: ServerState, addr: Addr, x: Secured, r: Responder,
    p: PullState, at: Service) returns (s': ServerState)
    requires AtConfirm(m, g, d, scfg, s, addr, x, r, p, at)
    ensures var (msg, iv) := ConfirmMessage(m.c, x, d.mid, p.ni, p.nr, p.iv);
            var q := Confirming(x, Informed(p.nr, Policies(p.teks)), iv);
            Finishes(m, g, d, scfg, s, addr, q, msg, [[Through(at)]], s', x, p.teks)
    ensures Leaves(s, s', d.ic, r.keys, r.suite, Confirmed(r, d.mid, g, p.teks))
  {
    hide Serve, Sealed, Lawful, Checked, Configured, ServerOk, ResponderOk, Negotiated, PullStep, HeaderOf, OnKeys, Policies,
      RoundedAll, KeysReply, Holdable, PullMac, ConfirmMessage, Proceed, MainSa, MainKe, MainAuth, FreshPull;
    var (msg, iv) := ConfirmMessage(m.c, x, d.mid, p.ni, p.nr, p.iv);
    var reply := KeysReply(m.c, x, d.mid, p.ni, p.nr, p.teks, iv);
    ConfirmHeader(m.c, x, d.mid, p.ni, p.nr, p.iv);
    var h := HeaderOf(msg).value;
    ExistingStepOk(scfg, s, h, at.now);
    var r1 := r.(touched := at.now);
    ConfirmStep(m, scfg, r1, x, g, h, p, s.groups, at.draw);
    var out := ResponderStep(scfg, r1, h, msg, s.groups, at.draw);
    ServeExisting(scfg, s, msg, addr, at, h, r, out, reply);
    s' := Serve(scfg, s, msg, addr, at).0;
    KeysReplyHeader(m.c, x, d.mid, p.ni, p.nr, p.teks, iv);
    MemberTakesKeys(m, x, d.mid, p.ni, p.nr, p.teks, iv);
    var q := Confirming(x, Informed(p.nr, Policies(p.teks)), iv);
    RoundPasses(m, g, d, scfg, s, addr, q, msg, at, [], s', reply, Done(x, RoundedAll(p.teks)), []);
    assert [[Through(at)]] + [] == [[Through(at)]];
    ProceedDone(m, g, d, scfg, s', addr, x, RoundedAll(p.teks));
  }

  lemma ProceedDone(m: MemberConfig, g: GroupId, d: MemberDraw, scfg: ServerConfig, s: ServerState, addr: Addr, x: Secured, teks: seq<Tek>)
    requires Checked(m) && Configured(scfg) && ServerOk(scfg, s)
    ensures Proceed(m, g, d, scfg, s, addr, Done(x, teks), [], []) == (s, Ok(Done(x, teks)))
  {
    hide Checked, Configured, ServerOk;
  }

  lemma ConfirmStep(
    m: MemberConfig, scfg: ServerConfig, r: Responder, x: Secured, g: GroupId, h: Header, p: PullState, groups: GroupTable,
    draw: Draw)
    requires m.c == scfg.c && Lawful(m.c) && Paired(x, r) && Configured(scfg) && ResponderOk(scfg, r) && Negotiated(scfg, r)
    requires h.rc == r.rc && r.rc != NO_COOKIE && h.exchange == XCHG_PULL
    requires h.msgId in r.pulls && r.pulls[h.msgId] == p && !p.done && p.ni != [] && p.group == Some(g)
    requires p.lastReq != ConfirmMessage(m.c, x, h.msgId, p.ni, p.nr, p.iv).0
    ensures var (msg, iv) := ConfirmMessage(m.c, x, h.msgId, p.ni, p.nr, p.iv);
            var reply := KeysReply(m.c, x, h.msgId, p.ni, p.nr, p.teks, iv);
            ResponderStep(scfg, r, h, msg, groups, draw)
            == Outcome(r.(pulls := r.pulls[h.msgId := p.(done := true, lastReq := msg, lastResp := reply)]),
                       Ok(Some(reply)), groups,
                       [Hash3Verified(r.session, h.msgId), Registered(r.session, h.msgId, r.peer.value, g, p.teks)])
  {
    hide Sealed, Lawful, Configured, ResponderOk, Negotiated, PullStep, KeysReply, PullMac, MainSa, MainKe, MainAuth, FreshPull;
    ServerTakesConfirm(m, scfg, r, x, g, h.msgId, p, groups, draw);
  }

  // ---- The fourth round: HASH(1) and the policy.

  lemma PolicyReplyHeader(c: Crypto, x: Secured, g: GroupId, mid: u32, ni: octets, nr: octets, teks: seq<Tek>, iv: block)
    requires Deliverable(g, teks) && |nr| == NONCE_LEN
    ensures IsPull(PolicyReply(c, x, mid, ni, nr, teks, iv).0, x, mid)
  {
    hide EncodeChain, PullMac, HeaderOf, Sealed, SaBody, Sendable, PaddedLength, Holdable, GroupIdPayload, NamedOnce,
      Encodable, SaOf, Policies, Find;
    var rest := PolicyPayloads(teks, nr);
    HonestRun.PolicyReads(g, teks, nr);
    var hash := PullMac(c, x.keys, mid, ni + EncodeChain(rest, P_NONE));
    MacIsShort(c, x.keys, mid, ni + EncodeChain(rest, P_NONE));
    HashSendable(hash, rest);
    SealedHeader(c, x.keys, PullHeader(x, mid), [Payload(P_HASH, hash)] + rest, iv);
  }

  /** The responder after message 1 of a pull. */
  function Promised(scfg: ServerConfig, r: Responder, x: Secured, g: GroupId, mid: u32, ni: octets, teks: seq<Tek>, draw: Draw): Responder
    requires GroupIdPayload(g).Ok? && SaBody(teks).Ok?
  {
    var (msg, iv) := Asked(scfg.c, x, g, mid, ni);
    var (reply, next) := PolicyReply(scfg.c, x, mid, ni, draw.nonce, teks, iv);
    r.(pulls := r.pulls[mid := AfterAsk(FreshPull(scfg.c, x.keys, mid), g, ni, draw.nonce, teks, msg, reply, next)])
  }

  lemma AskStep(
    m: MemberConfig, scfg: ServerConfig, r: Responder, x: Secured, g: GroupId, h: Header, ni: octets, groups: GroupTable,
    draw: Draw)
    requires m.c == scfg.c && Lawful(m.c) && Paired(x, r) && Configured(scfg) && ResponderOk(scfg, r) && Negotiated(scfg, r)
    requires h.rc == r.rc && r.rc != NO_COOKIE && h.exchange == XCHG_PULL && r.pulls == map[] && |ni| == NONCE_LEN
    requires g in groups && scfg.authorize(r.peer.value, g) && Deliverable(g, Snapshot(groups[g], draw.at))
    ensures var teks := Snapshot(groups[g], draw.at);
            var (msg, iv) := Asked(m.c, x, g, h.msgId, ni);
            var (reply, next) := PolicyReply(m.c, x, h.msgId, ni, draw.nonce, teks, iv);
            ResponderStep(scfg, r, h, msg, groups, draw)
            == Outcome(Promised(scfg, r, x, g, h.msgId, ni, teks, draw), Ok(Some(reply)),
                       groups[g := Live(groups[g], draw.at)],
                       [Hash1Verified(r.session, h.msgId), Authorised(r.session, h.msgId, r.peer.value, g)])
  {
    hide Asked, PolicyReply, Lawful, Configured, ResponderOk, Negotiated, PullStep, PullMac, MainSa, MainKe, MainAuth,
      FreshPull, Snapshot, Live, Deliverable;
    ServerTakesAsk(m, scfg, r, x, g, h.msgId, ni, groups, draw);
  }

  /** The exchange is established and the member asks for a group. */
  ghost predicate AtAsk(
    m: MemberConfig, g: GroupId, d: MemberDraw, scfg: ServerConfig, s: ServerState, addr: Addr, x: Secured, r: Responder,
    at: Service, last: Service)
  {
    && m.c == scfg.c && Lawful(m.c) && Checked(m) && Configured(scfg) && ServerOk(scfg, s)
    && at.draw.rc != NO_COOKIE && last.draw.rc != NO_COOKIE && |at.draw.nonce| == NONCE_LEN && |d.pullNi| == NONCE_LEN
    && Paired(x, r) && d.ic in s.peers && s.peers[d.ic] == r && x.ic == d.ic && r.addr == addr && r.pulls == map[]
    && g in s.groups && scfg.authorize(r.peer.value, g) && Deliverable(g, Snapshot(s.groups[g], at.draw.at))
    && r.lastReq != Asked(m.c, x, g, d.mid, d.pullNi).0
  }

  function Permitted(r: Responder, mid: u32, g: GroupId): seq<Event>
    requires r.peer.Some?
  {
    [Hash1Verified(r.session, mid), Authorised(r.session, mid, r.peer.value, g)]
  }

  lemma AskRound(
    m: MemberConfig, g: GroupId, d: MemberDraw, scfg: ServerConfig, s: ServerState, addr: Addr, x: Secured, r: Responder,
    at: Service, last: Service) returns (s': ServerState)
    requires AtAsk(m, g, d, scfg, s, addr, x, r, at, last)
    ensures var teks := Snapshot(s.groups[g], at.draw.at);
            var (msg, iv) := Asked(m.c, x, g, d.mid, d.pullNi);
            && Finishes(m, g, d, scfg, s, addr, Asking(x, iv), msg, [[Through(at)], [Through(last)]], s', x, teks)
            && Leaves(s, s', d.ic, r.keys, r.suite, Permitted(r, d.mid, g) + Confirmed(r, d.mid, g, teks))
  {
    hide Serve, Lawful, Checked, Configured, ServerOk, ResponderOk, Negotiated, HeaderOf, OnPolicy, Policies, RoundedAll,
      PullMac, Proceed, Phase2Iv, ResponderStep, Asked, PolicyReply, Sealed, Snapshot, Live, SaBody, Holdable,
      GroupIdPayload, NamedOnce;
    var teks := Snapshot(s.groups[g], at.draw.at);
    var (msg, iv) := Asked(m.c, x, g, d.mid, d.pullNi);
    var (reply, next) := PolicyReply(m.c, x, d.mid, d.pullNi, at.draw.nonce, teks, iv);
    AskHeader(m.c, x, g, d.mid, d.pullNi);
    var h := HeaderOf(msg).value;
    ExistingStepOk(scfg, s, h, at.now);
    var r1 := r.(touched := at.now);
    AskStep(m, scfg, r1, x, g, h, d.pullNi, s.groups, at.draw);
    var out := ResponderStep(scfg, r1, h, msg, s.groups, at.draw);
    ServeExisting(scfg, s, msg, addr, at, h, r, out, reply);
    var s1 := Serve(scfg, s, msg, addr, at).0;
    PolicyReplyHeader(m.c, x, g, d.mid, d.pullNi, at.draw.nonce, teks, iv);
    MemberTakesPolicy(m, x, g, d.mid, d.pullNi, at.draw.nonce, teks, iv);
    var (msg3, iv3) := ConfirmMessage(m.c, x, d.mid, d.pullNi, at.draw.nonce, next);
    var p' := Confirming(x, Informed(at.draw.nonce, Policies(teks)), iv3);
    RoundPasses(m, g, d, scfg, s, addr, Asking(x, iv), msg, at, [[Through(last)]], s1, reply, p', msg3);
    ConfirmIsNotAsk(m.c, x, g, d.mid, d.pullNi, at.draw.nonce, next);
    var r2 := s1.peers[d.ic];
    s' := ConfirmRound(m, g, d, scfg, s1, addr, x, r2, r2.pulls[d.mid], last);
    assert [[Through(at)]] + [[Through(last)]] == [[Through(at)], [Through(last)]];
  }

  // ---- The third round: the authentications.

  lemma AuthMessages(m: MemberConfig, scfg: ServerConfig, r: Responder, k: Keyed, idm: IdPayload, ids: IdPayload)
    requires m.c == scfg.c && Checked(m) && Trusting(m, scfg, idm, ids) && Mirrors(m, r, k)
    ensures MemberProof(m, k).Ok? && ServerProof(scfg, r).Ok?
    ensures var (msg, iv) := AuthRequest(m, k);
            var (reply, _) := AuthReply(scfg, r, k, iv);
            IsSealedMain(msg, k.ic, k.rc) && IsSealedMain(reply, k.ic, k.rc)
  {
    hide Sealed, MemberProof, ServerProof, Checked, Trusting, Sendable, EncodeChain, PaddedLength, HeaderOf, CheckMember,
      CheckServer;
    ServerConvinced(m, scfg, r, k, idm, ids);
    MemberConvinced(m, scfg, r, k, idm, ids);
    TrustingKeys(m, scfg, idm, ids);
    var (_, iv) := AuthRequest(m, k);
    SealedHeader(m.c, k.keys, MainHeader(k.ic, k.rc), MemberProof(m, k).value, k.iv);
    SealedHeader(scfg.c, k.keys, HeaderFor(r, XCHG_MAIN, 0), ServerProof(scfg, r).value, iv);
  }

  lemma TrustingKeys(m: MemberConfig, scfg: ServerConfig, idm: IdPayload, ids: IdPayload)
    requires Trusting(m, scfg, idm, ids)
    ensures m.auth != AUTH_PSK ==> m.creds.key.Some? && scfg.creds.key.Some?
    ensures m.auth != AUTH_PSK ==> m.creds.certificates != [] && scfg.creds.certificates != []
  {
  }

  predicate IsSealedMain(msg: octets, ic: cookie, rc: cookie)
  {
    match HeaderOf(msg)
    case Err(_) => false
    case Ok(h) => h.ic == ic && h.rc == rc && h.exchange == XCHG_MAIN && Encrypted(h)
  }

  predicate IsClear(msg: octets) { HeaderOf(msg).Ok? && !Encrypted(HeaderOf(msg).value) }

  /** Both ends hold the keys, and the member authenticates. */
  ghost predicate AtAuth(
    m: MemberConfig, g: GroupId, d: MemberDraw, scfg: ServerConfig, s: ServerState, addr: Addr, k: Keyed, r: Responder,
    idm: IdPayload, ids: IdPayload, at: Service, rest: seq<Service>)
  {
    && m.c == scfg.c && Lawful(m.c) && Checked(m) && Configured(scfg) && ServerOk(scfg, s)
    && Trusting(m, scfg, idm, ids) && Mirrors(m, r, k) && r.stage == AwaitingAuth && Negotiated(scfg, r)
    && (m.auth != AUTH_PSK ==> m.creds.certificates != [] && scfg.creds.certificates != [])
    && m.authorizeServer(ServerPeer(m, scfg, ids)) && scfg.authorize(MemberPeer(m, addr, idm), g)
    && d.ic in s.peers && s.peers[d.ic] == r && k.ic == d.ic && r.addr == addr && IsClear(r.lastReq)
    && |rest| == 2 && at.draw.rc != NO_COOKIE && rest[0].draw.rc != NO_COOKIE && rest[1].draw.rc != NO_COOKIE
    && |rest[0].draw.nonce| == NONCE_LEN && |d.pullNi| == NONCE_LEN
    && g in s.groups && Deliverable(g, Snapshot(s.groups[g], rest[0].draw.at))
  }

  /** The member's proof is served and the server's taken: each end knows the
      other, and the keys are the ones they had. */
  ghost predicate Authenticated(
    m: MemberConfig, d: MemberDraw, scfg: ServerConfig, s: ServerState, addr: Addr, k: Keyed, r: Responder,
    idm: IdPayload, ids: IdPayload, at: Service, s': ServerState, x: Secured, reply: octets)
  {
    && Configured(scfg) && ServerOk(scfg, s) && Checked(m)
    && (m.auth != AUTH_PSK ==> m.creds.key.Some? && m.creds.certificates != [] && scfg.creds.certificates != [])
    && MemberProof(m, k).Ok? && IsSealedMain(reply, k.ic, k.rc)
    && (var (msg, iv) := AuthRequest(m, k);
        Serve(scfg, s, msg, addr, at) == (s', Some(reply)) && OnAuth(m, k, iv, reply) == Ok(x))
    && s'.groups == s.groups && s'.log == s.log + [PeerAuthenticated(r.session, MemberPeer(m, addr, idm))]
    && d.ic in s'.peers && s'.peers[d.ic].session == r.session && s'.peers[d.ic].suite == r.suite
    && s'.peers[d.ic].peer == Some(MemberPeer(m, addr, idm)) && s'.peers[d.ic].addr == addr
    && Paired(x, s'.peers[d.ic]) && s'.peers[d.ic].pulls == map[] && IsSealedMain(s'.peers[d.ic].lastReq, k.ic, k.rc)
    && x.ic == k.ic && x.server == ServerPeer(m, scfg, ids) && x.keys == k.keys.(last := x.keys.last)
  }

  lemma AuthServed(
    m: MemberConfig, g: GroupId, d: MemberDraw, scfg: ServerConfig, s: ServerState, addr: Addr, k: Keyed, r: Responder,
    idm: IdPayload, ids: IdPayload, at: Service, rest: seq<Service>)
    returns (s': ServerState, x: Secured, reply: octets)
    requires AtAuth(m, g, d, scfg, s, addr, k, r, idm, ids, at, rest)
    ensures Authenticated(m, d, scfg, s, addr, k, r, idm, ids, at, s', x, reply)
  {
    hide Serve, Lawful, Checked, Configured, ServerOk, ResponderOk, Negotiated, HeaderOf, OnAuth, ResponderStep, Asked,
      Snapshot, Deliverable, Trusting, MemberProof, ServerProof, AuthRequest, AuthReply, PullRequestMessage, Encrypted;
    TrustingKeys(m, scfg, idm, ids);
    var r1 := r.(touched := at.now);
    AuthMessages(m, scfg, r1, k, idm, ids);
    var (msg, iv) := AuthRequest(m, k);
    var (answer, last) := AuthReply(scfg, r1, k, iv);
    reply := answer;
    var h := HeaderOf(msg).value;
    ExistingStepOk(scfg, s, h, at.now);
    AuthStep(m, scfg, r1, k, idm, ids, h, s.groups, at.draw);
    assert r.lastReq != msg;
    ServeExisting(scfg, s, msg, addr, at, h, r, ResponderStep(scfg, r1, h, msg, s.groups, at.draw), reply);
    s' := Serve(scfg, s, msg, addr, at).0;
    MemberTakesAuth(m, scfg, r1, k, idm, ids);
    x := Secured(k.ic, k.rc, k.keys.(last := Some(last)), ServerPeer(m, scfg, ids));
  }

  lemma AuthThenAsk(
    m: MemberConfig, g: GroupId, d: MemberDraw, scfg: ServerConfig, s: ServerState, addr: Addr, k: Keyed, r: Responder,
    idm: IdPayload, ids: IdPayload, at: Service, rest: seq<Service>, s': ServerState, x: Secured, reply: octets)
    requires AtAuth(m, g, d, scfg, s, addr, k, r, idm, ids, at, rest)
    requires Authenticated(m, d, scfg, s, addr, k, r, idm, ids, at, s', x, reply)
    ensures AtAsk(m, g, d, scfg, s', addr, x, s'.peers[d.ic], rest[0], rest[1])
  {
    hide Serve, Lawful, Checked, Configured, ServerOk, Negotiated, HeaderOf, OnAuth, Asked, Snapshot, Deliverable, Trusting,
      MemberProof, AuthRequest, PullRequestMessage, Encrypted;
    AskIsSent(m, x, g, d, Snapshot(s.groups[g], rest[0].draw.at));
  }

  lemma AuthRound(
    m: MemberConfig, g: GroupId, d: MemberDraw, scfg: ServerConfig, s: ServerState, addr: Addr, k: Keyed, r: Responder,
    idm: IdPayload, ids: IdPayload, at: Service, rest: seq<Service>) returns (s': ServerState, x: Secured)
    requires AtAuth(m, g, d, scfg, s, addr, k, r, idm, ids, at, rest)
    ensures MemberProof(m, k).Ok?
    ensures var (msg, iv) := AuthRequest(m, k);
            var teks := Snapshot(s.groups[g], rest[0].draw.at);
            && Finishes(m, g, d, scfg, s, addr, Proving(k, iv), msg, [[Through(at)]] + AllThrough(rest), s', x, teks)
            && Leaves(s, s', d.ic, Some(x.keys), r.suite, Story(r.session, d.mid, MemberPeer(m, addr, idm), g, teks))
    ensures x.server == ServerPeer(m, scfg, ids) && x.keys == k.keys.(last := x.keys.last)
  {
    hide Serve, Lawful, Checked, Configured, ServerOk, Negotiated, HeaderOf, OnAuth, RoundedAll, Proceed, Asked, Snapshot,
      Deliverable, Trusting, MemberProof, AuthRequest, Story, PullRequestMessage, Encrypted, Permitted, Confirmed,
      MemberPeer, ServerPeer, AllThrough, Mirrors;
    TrustingKeys(m, scfg, idm, ids);
    var s1, x1, reply := AuthServed(m, g, d, scfg, s, addr, k, r, idm, ids, at, rest);
    x := x1;
    AuthThenAsk(m, g, d, scfg, s, addr, k, r, idm, ids, at, rest, s1, x, reply);
    var teks := Snapshot(s.groups[g], rest[0].draw.at);
    var (msg, iv) := AuthRequest(m, k);
    AskIsSent(m, x, g, d, teks);
    var (ask, next) := Asked(m.c, x, g, d.mid, d.pullNi);
    TwoThrough(rest);
    RoundPasses(m, g, d, scfg, s, addr, Proving(k, iv), msg, at, AllThrough(rest), s1, reply, Asking(x, next), ask);
    s' := AskRound(m, g, d, scfg, s1, addr, x, s1.peers[d.ic], rest[0], rest[1]);
    StoryParts(s.log, s1.peers[d.ic], d.mid, g, teks);
  }

  lemma TwoThrough(ats: seq<Service>)
    requires |ats| == 2
    ensures AllThrough(ats) == [[Through(ats[0])], [Through(ats[1])]]
  {
  }

  /** What the server records of a registration. */
  function Story(session: nat, mid: u32, peer: Peer, g: GroupId, teks: seq<Tek>): seq<Event>
  {
    [ PeerAuthenticated(session, peer), Hash1Verified(session, mid), Authorised(session, mid, peer, g),
      Hash3Verified(session, mid), Registered(session, mid, peer, g, teks) ]
  }

  lemma StoryParts(log: seq<Event>, r: Responder, mid: u32, g: GroupId, teks: seq<Tek>)
    requires r.peer.Some?
    ensures log + [PeerAuthenticated(r.session, r.peer.value)] + (Permitted(r, mid, g) + Confirmed(r, mid, g, teks))
         == log + Story(r.session, mid, r.peer.value, g, teks)
  {
  }

  lemma AskIsSent(m: MemberConfig, x: Secured, g: GroupId, d: MemberDraw, teks: seq<Tek>)
    requires Lawful(m.c) && Deliverable(g, teks) && |d.pullNi| == NONCE_LEN
    ensures GroupIdPayload(g).Ok? && PullRequestMessage(m, x, g, d.mid, d.pullNi) == Ok(Asked(m.c, x, g, d.mid, d.pullNi))
    ensures IsPull(Asked(m.c, x, g, d.mid, d.pullNi).0, x, d.mid)
  {
    hide Lawful, Asked, PullRequestMessage, GroupIdPayload, NamedOnce, Holdable, SaBody, Open, HeaderOf, EncodeChain, PullMac;
    ServerOpensAsk(m, x, g, d.mid, d.pullNi);
    AskHeader(m.c, x, g, d.mid, d.pullNi);
  }

  lemma AuthStep(
    m: MemberConfig, scfg: ServerConfig, r: Responder, k: Keyed, idm: IdPayload, ids: IdPayload, h: Header,
    groups: GroupTable, draw: Draw)
    requires m.c == scfg.c && Lawful(m.c) && Checked(m) && Configured(scfg) && ResponderOk(scfg, r) && Negotiated(scfg, r)
    requires Trusting(m, scfg, idm, ids) && Mirrors(m, r, k) && r.stage == AwaitingAuth
    requires h.rc == r.rc && r.rc != NO_COOKIE && h.exchange == XCHG_MAIN
    requires m.auth != AUTH_PSK ==> m.creds.certificates != []
    ensures MemberProof(m, k).Ok? && ServerProof(scfg, r).Ok? && r.pulls == map[]
    ensures var (msg, iv) := AuthRequest(m, k);
            var (reply, last) := AuthReply(scfg, r, k, iv);
            var peer := MemberPeer(m, r.addr, idm);
            ResponderStep(scfg, r, h, msg, groups, draw)
            == Outcome(r.(stage := Established, keys := Some(k.keys.(last := Some(last))), peer := Some(peer)),
                       Ok(Some(reply)), groups, [PeerAuthenticated(r.session, peer)])
  {
    hide Lawful, Checked, Configured, Negotiated, Trusting, MemberProof, ServerProof, AuthRequest, AuthReply, MainSa, MainKe,
      MainAuth, Pull;
    ServerTakesAuth(m, scfg, r, k, idm, ids);
  }

  // ---- The second round: the key exchange.

  function KeMessage(c: Crypto, h: Header, group: u16, secret: octets, nonce: octets): octets
  {
    Message(h, [Payload(P_KE, c.public(group, secret)), Payload(P_NONCE, nonce)])
  }

  lemma KeHeader(c: Crypto, h: Header, group: u16, secret: octets, nonce: octets)
    requires |c.public(group, secret)| <= 1024 && |nonce| == NONCE_LEN && h.flags == 0
    ensures var msg := KeMessage(c, h, group, secret, nonce);
            IsClearMain(msg, h) && HeaderOf(msg).value.next == P_KE
  {
    hide EncodeChain, HeaderOf, Message, Sendable;
    var a, b := Payload(P_KE, c.public(group, secret)), Payload(P_NONCE, nonce);
    TwoSendable(a, b);
    MessageHeader(h, [a, b]);
  }

  predicate IsClearMain(msg: octets, h: Header)
  {
    match HeaderOf(msg)
    case Err(_) => false
    case Ok(h') => h'.ic == h.ic && h'.rc == h.rc && h'.exchange == h.exchange && !Encrypted(h')
  }

  /** The keys both ends derive. */
  function Secret(m: MemberConfig, r: Responder, d: MemberDraw, draw: Draw, gxy: octets): (octets, Keys)
    requires ValidSuite(r.suite)
  {
    var skeyid := Skeyid(m.c, HashOf(r.suite), r.auth, r.psk, d.ni, draw.nonce, gxy);
    (skeyid, Derive(m.c, r.suite, skeyid, gxy, r.ic, r.rc).value)
  }

  function KeyedBy(m: MemberConfig, r: Responder, d: MemberDraw, draw: Draw, gxy: octets): Keyed
    requires ValidSuite(r.suite)
  {
    var (skeyid, keys) := Secret(m, r, d, draw, gxy);
    var gxi, gxr := m.c.public(r.suite.group, d.secret), m.c.public(r.suite.group, draw.secret);
    Keyed(r.ic, r.rc, gxi, gxr, skeyid, keys, Phase1Iv(m.c, HashOf(r.suite), gxi, gxr))
  }

  function KeRequest(m: MemberConfig, r: Responder, d: MemberDraw): octets
  {
    KeMessage(m.c, MainHeader(d.ic, r.rc), r.suite.group, d.secret, d.ni)
  }

  function KeAnswer(m: MemberConfig, r: Responder, draw: Draw): octets
  {
    KeMessage(m.c, HeaderFor(r, XCHG_MAIN, 0), r.suite.group, draw.secret, draw.nonce)
  }

  /** The responder waits for the key exchange, and the values agree. */
  ghost predicate KeyExchange(
    m: MemberConfig, scfg: ServerConfig, r: Responder, d: MemberDraw, draw: Draw, h: Header, gxy: octets)
  {
    && m.c == scfg.c && Configured(scfg) && ResponderOk(scfg, r) && Negotiated(scfg, r) && ValidSuite(r.suite)
    && r.stage == AwaitingKe && h.rc == r.rc && r.rc != NO_COOKIE && h.exchange == XCHG_MAIN
    && SharedOk(m, r.suite.group, d.secret, draw.secret) && |d.ni| == NONCE_LEN
    && m.c.shared(r.suite.group, draw.secret, m.c.public(r.suite.group, d.secret)) == Some(gxy)
    && r.saI == OwnSa(m) && r.auth == m.auth && r.ic == d.ic
  }

  predicate MovesToAuth(r: Responder, r': Responder)
  {
    r' == r.(stage := AwaitingAuth, keys := r'.keys, dh := r'.dh, gxi := r'.gxi, skeyid := r'.skeyid, iv := r'.iv)
  }

  lemma KeStep(m: MemberConfig, scfg: ServerConfig, r: Responder, d: MemberDraw, draw: Draw, h: Header, groups: GroupTable, gxy: octets)
    returns (r': Responder)
    requires KeyExchange(m, scfg, r, d, draw, h, gxy)
    ensures ResponderStep(scfg, r, h, KeRequest(m, r, d), groups, draw)
         == Outcome(r', Ok(Some(KeAnswer(m, r, draw))), groups, [])
    ensures Mirrors(m, r', KeyedBy(m, r, d, draw, gxy)) && MovesToAuth(r, r')
  {
    hide Configured, Negotiated, MainSa, MainKe, MainAuth, Pull, Message, Derive, Skeyid, Phase1Iv, OwnSa, SharedOk, HashOf;
    var (skeyid, keys) := Secret(m, r, d, draw, gxy);
    var gxi, gxr := m.c.public(r.suite.group, d.secret), m.c.public(r.suite.group, draw.secret);
    ServerTakesKe(m, scfg, r, r.suite.group, d, draw, skeyid, keys, gxy);
    r' := AfterKe(m.c, r, gxi, gxr, skeyid, keys);
  }

  /** The suite is agreed, and the member sends its key exchange value. */
  ghost predicate AtKe(
    m: MemberConfig, g: GroupId, d: MemberDraw, scfg: ServerConfig, s: ServerState, addr: Addr, r: Responder,
    idm: IdPayload, ids: IdPayload, at: Service, rest: seq<Service>)
  {
    && m.c == scfg.c && Lawful(m.c) && Checked(m) && Configured(scfg) && ServerOk(scfg, s)
    && Trusting(m, scfg, idm, ids) && r.stage == AwaitingKe && Negotiated(scfg, r) && ValidSuite(r.suite)
    && (m.auth != AUTH_PSK ==> m.creds.certificates != [] && scfg.creds.certificates != [])
    && m.authorizeServer(ServerPeer(m, scfg, ids)) && scfg.authorize(MemberPeer(m, addr, idm), g)
    && d.ic in s.peers && s.peers[d.ic] == r && r.ic == d.ic && r.addr == addr && r.rc != NO_COOKIE
    && r.saI == OwnSa(m) && r.auth == m.auth && (m.auth == AUTH_PSK ==> r.psk == m.psk)
    && HeaderOf(r.lastReq).Ok? && HeaderOf(r.lastReq).value.rc == NO_COOKIE
    && SharedOk(m, r.suite.group, d.secret, at.draw.secret) && |d.ni| == NONCE_LEN && |at.draw.nonce| == NONCE_LEN
    && |rest| == 3 && at.draw.rc != NO_COOKIE && (forall i :: 0 <= i < 3 ==> rest[i].draw.rc != NO_COOKIE)
    && |rest[1].draw.nonce| == NONCE_LEN && |d.pullNi| == NONCE_LEN
    && g in s.groups && Deliverable(g, Snapshot(s.groups[g], rest[1].draw.at))
  }

  lemma KeRound(
    m: MemberConfig, g: GroupId, d: MemberDraw, scfg: ServerConfig, s: ServerState, addr: Addr, r: Responder,
    idm: IdPayload, ids: IdPayload, at: Service, rest: seq<Service>) returns (s': ServerState, x: Secured)
    requires AtKe(m, g, d, scfg, s, addr, r, idm, ids, at, rest)
    ensures var teks := Snapshot(s.groups[g], rest[1].draw.at);
            var p := Exchanging(Chosen(d.ic, r.rc, r.suite, d.secret, d.ni));
            && Finishes(m, g, d, scfg, s, addr, p, KeRequest(m, r, d), [[Through(at)]] + AllThrough(rest), s', x, teks)
            && Leaves(s, s', d.ic, Some(x.keys), r.suite, Story(r.session, d.mid, MemberPeer(m, addr, idm), g, teks))
    ensures x.server == ServerPeer(m, scfg, ids)
  {
    hide Serve, Lawful, Checked, Configured, ServerOk, ResponderOk, Negotiated, HeaderOf, OnKe, RoundedAll, Proceed,
      ResponderStep, Snapshot, Deliverable, Trusting, MemberProof, ServerProof, AuthRequest, Story, KeMessage, OwnSa,
      Encrypted, KeyedBy, MemberPeer, ServerPeer;
    var gxy := m.c.shared(r.suite.group, at.draw.secret, m.c.public(r.suite.group, d.secret)).value;
    var r1 := r.(touched := at.now);
    var req, reply := KeRequest(m, r, d), KeAnswer(m, r1, at.draw);
    KeHeader(m.c, MainHeader(d.ic, r.rc), r.suite.group, d.secret, d.ni);
    KeHeader(m.c, HeaderFor(r1, XCHG_MAIN, 0), r.suite.group, at.draw.secret, at.draw.nonce);
    var h := HeaderOf(req).value;
    ExistingStepOk(scfg, s, h, at.now);
    var r2 := KeStep(m, scfg, r1, d, at.draw, h, s.groups, gxy);
    var out := ResponderStep(scfg, r1, h, req, s.groups, at.draw);
    ServeExisting(scfg, s, req, addr, at, h, r, out, reply);
    var s1 := Serve(scfg, s, req, addr, at).0;
    assert s1.log == s.log by { assert s.log + [] == s.log; }
    var k := KeyedBy(m, r1, d, at.draw, gxy);
    var r3 := s1.peers[d.ic];
    KeReply(m, scfg, r1, r3, d, at.draw, gxy, idm, ids);
    var (msg, iv) := AuthRequest(m, k);
    RoundPasses(m, g, d, scfg, s, addr, Exchanging(Chosen(d.ic, r.rc, r.suite, d.secret, d.ni)), req, at,
                AllThrough(rest), s1, reply, Proving(k, iv), msg);
    NegotiatedStays(scfg, r, r3);
    s', x := AuthRound(m, g, d, scfg, s1, addr, k, r3, idm, ids, rest[0], rest[1..]);
    assert AllThrough(rest) == [[Through(rest[0])]] + AllThrough(rest[1..]);
  }

  lemma NegotiatedStays(scfg: ServerConfig, r: Responder, r': Responder)
    requires Negotiated(scfg, r) && r'.auth == r.auth && r'.psk == r.psk
    ensures Negotiated(scfg, r')
  {
  }

  lemma KeReply(
    m: MemberConfig, scfg: ServerConfig, r: Responder, r': Responder, d: MemberDraw, draw: Draw, gxy: octets,
    idm: IdPayload, ids: IdPayload)
    requires m.c == scfg.c && Lawful(m.c) && Checked(m) && Trusting(m, scfg, idm, ids) && ValidSuite(r.suite)
    requires SharedOk(m, r.suite.group, d.secret, draw.secret) && |draw.nonce| == NONCE_LEN && r.ic == d.ic
    requires r.auth == m.auth && (m.auth == AUTH_PSK ==> r.psk == m.psk)
    requires m.c.shared(r.suite.group, draw.secret, m.c.public(r.suite.group, d.secret)) == Some(gxy)
    requires Mirrors(m, r', KeyedBy(m, r, d, draw, gxy))
    ensures var k := KeyedBy(m, r, d, draw, gxy);
            var x := Chosen(d.ic, r.rc, r.suite, d.secret, d.ni);
            var reply := KeMessage(m.c, HeaderFor(r, XCHG_MAIN, 0), r.suite.group, draw.secret, draw.nonce);
            && (m.auth != AUTH_PSK ==> m.creds.key.Some?) && MemberProof(m, k).Ok?
            && var (msg, iv) := AuthRequest(m, k); OnKe(m, x, reply) == Ok((k, msg, iv))
  {
    hide Lawful, Trusting, Message, Derive, Skeyid, Phase1Iv, OwnSa, SharedOk, HashOf, MemberProof, OnKe, Sealed, Mirrors,
      CheckMember, Sendable;
    TrustingKeys(m, scfg, idm, ids);
    var (skeyid, keys) := Secret(m, r, d, draw, gxy);
    var k := KeyedBy(m, r, d, draw, gxy);
    ServerConvinced(m, scfg, r', k, idm, ids);
    MemberTakesKe(m, r, Chosen(d.ic, r.rc, r.suite, d.secret, d.ni), draw, skeyid, keys, gxy);
  }

  // ---- The first round, and the whole.

  function AllThrough(ats: seq<Service>): seq<seq<Fate>>
  {
    seq(|ats|, i requires 0 <= i < |ats| => [Through(ats[i])])
  }

  /** Compatible configurations, credentials and authorisations on both sides, a
      group whose TEKs fit the replies, and draws of the right length. */
  ghost predicate Honest(
    m: MemberConfig, scfg: ServerConfig, s: ServerState, addr: Addr, g: GroupId, d: MemberDraw, idm: IdPayload,
    ids: IdPayload, ats: seq<Service>)
  {
    && Compatible(m, scfg, addr) && Trusting(m, scfg, idm, ids)
    && (m.auth != AUTH_PSK ==> m.creds.certificates != [] && scfg.creds.certificates != [])
    && m.authorizeServer(ServerPeer(m, scfg, ids)) && scfg.authorize(MemberPeer(m, addr, idm), g)
    && ServerOk(scfg, s) && d.ic !in s.peers
    && |ats| == 5 && (forall i :: 0 <= i < 5 ==> ats[i].draw.rc != NO_COOKIE)
    && Expired(s.peers, ats[0].now, ats[0].kept)
    && SharedOk(m, Agreed(m, scfg, addr).value.suite.group, d.secret, ats[1].draw.secret)
    && |d.ni| == |d.pullNi| == |ats[1].draw.nonce| == |ats[3].draw.nonce| == NONCE_LEN
    && g in s.groups && Deliverable(g, Snapshot(s.groups[g], ats[3].draw.at))
  }

  lemma FirstHeader(m: MemberConfig, scfg: ServerConfig, addr: Addr, ic: cookie)
    requires Compatible(m, scfg, addr)
    ensures IsClearMain(FirstRequest(m, ic), MainHeader(ic, NO_COOKIE))
  {
    hide Message, HeaderOf, EncodeChain, OwnSa, Sendable, Lawful, Checked, Configured, Agreed, ParsePhase1Sa, Offered,
      TransformOf;
    AgreedTransform(m, scfg, addr);
    OneSendable(P_SA, OwnSa(m));
    MessageHeader(MainHeader(ic, NO_COOKIE), [Payload(P_SA, OwnSa(m))]);
  }

  function SaReply(r: Responder, t: Transform): octets
  {
    Message(HeaderFor(r, XCHG_MAIN, 0), [Payload(P_SA, ChosenSa(t))])
  }

  lemma SaReplyHeader(m: MemberConfig, scfg: ServerConfig, addr: Addr, r: Responder)
    requires Compatible(m, scfg, addr)
    ensures IsClearMain(SaReply(r, Agreed(m, scfg, addr).value), HeaderFor(r, XCHG_MAIN, 0))
  {
    hide Message, HeaderOf, EncodeChain, OwnSa, Sendable, Lawful, Checked, Configured, Agreed, ParsePhase1Sa, Offered,
      TransformOf, Phase1SaWithDoi;
    AgreedTransform(m, scfg, addr);
    var t := Agreed(m, scfg, addr).value;
    ChosenReads(DOI_GDOI, t);
    OneSendable(P_SA, ChosenSa(t));
    MessageHeader(HeaderFor(r, XCHG_MAIN, 0), [Payload(P_SA, ChosenSa(t))]);
  }

  /** In an honest run without loss, the member takes the server for what it is,
      both ends hold the same keys under the member's first acceptable offer,
      the member ends with exactly the TEKs of the server's snapshot, rounded to
      seconds, and the server records one registration of that member with them. */
  lemma HonestRunCompletes(
    m: MemberConfig, scfg: ServerConfig, s: ServerState, addr: Addr, g: GroupId, d: MemberDraw, idm: IdPayload,
    ids: IdPayload, ats: seq<Service>) returns (s': ServerState, x: Secured)
    requires Honest(m, scfg, s, addr, g, d, idm, ids, ats)
    ensures var teks := Snapshot(s.groups[g], ats[3].draw.at);
            && Finishes(m, g, d, scfg, s, addr, Opening, FirstRequest(m, d.ic), AllThrough(ats), s', x, teks)
            && Leaves(s, s', d.ic, Some(x.keys), Agreed(m, scfg, addr).value.suite,
                      Story(s.sessions, d.mid, MemberPeer(m, addr, idm), g, teks))
    ensures x.server == ServerPeer(m, scfg, ids)
  {
    hide Serve, Lawful, Checked, Configured, ServerOk, HeaderOf, OnSa, RoundedAll, Proceed, Snapshot, Deliverable, Trusting,
      Story, Encrypted, MemberPeer, ServerPeer, Expired, FirstRequest, SharedOk, OwnSa, MainSa, Agreed, Message,
      ParsePhase1Sa, Offered, TransformOf, Phase1SaWithDoi, Negotiated;
    var at := ats[0];
    var t := Agreed(m, scfg, addr).value;
    var req := FirstRequest(m, d.ic);
    FirstHeader(m, scfg, addr, d.ic);
    AgreedTransform(m, scfg, addr);
    var r := NewResponder(s.sessions, addr, d.ic, at.draw.rc, at.now);
    ServerTakesSa(m, scfg, addr, r, d.ic);
    var r1 := AfterSa(m, scfg, r, t);
    var reply := SaReply(r, t);
    ServeNew(scfg, s, req, addr, at, HeaderOf(req).value, r1, reply);
    var s1 := Serve(scfg, s, req, addr, at).0;
    SaReplyHeader(m, scfg, addr, r);
    MemberTakesSa(m, scfg, addr, r, d);
    var p := Exchanging(Chosen(d.ic, r.rc, t.suite, d.secret, d.ni));
    var next := KeMessage(m.c, MainHeader(d.ic, r.rc), t.suite.group, d.secret, d.ni);
    RoundPasses(m, g, d, scfg, s, addr, Opening, req, at, AllThrough(ats[1..]), s1, reply, p, next);
    var r2 := s1.peers[d.ic];
    PeerNegotiated(scfg, s1, d.ic);
    s', x := KeRound(m, g, d, scfg, s1, addr, r2, idm, ids, ats[1], ats[2..]);
    assert AllThrough(ats) == [[Through(at)]] + AllThrough(ats[1..]);
    assert AllThrough(ats[1..]) == [[Through(ats[1])]] + AllThrough(ats[2..]);
  }

  lemma PeerNegotiated(scfg: ServerConfig, s: ServerState, ic: cookie)
    requires ServerOk(scfg, s) && ic in s.peers
    ensures Negotiated(scfg, s.peers[ic]) && s.peers[ic].rc != NO_COOKIE
  {
    assert PeerOk(scfg, ic, s.peers[ic]);
  }

  /** The same registration when any messages are lost on the way, as long as
      each request gets through in the end. */
  lemma HonestLossyRunCompletes(
    m: MemberConfig, scfg: ServerConfig, s: ServerState, addr: Addr, g: GroupId, d: MemberDraw, idm: IdPayload,
    ids: IdPayload, rounds: seq<seq<Fate>>)
    requires |rounds| == 5 && AllGetThrough(rounds)
    requires Honest(m, scfg, s, addr, g, d, idm, ids, FirstServices(rounds))
    ensures var teks := Snapshot(s.groups[g], FirstServices(rounds)[3].draw.at);
            var (s', r) := Proceed(m, g, d, scfg, s, addr, Opening, FirstRequest(m, d.ic), rounds);
            && r.Ok? && r.value.Done? && r.value.teks == RoundedAll(teks)
            && r.value.secured.server == ServerPeer(m, scfg, ids)
            && s'.log == s.log + Story(s.sessions, d.mid, MemberPeer(m, addr, idm), g, teks)
            && d.ic in s'.peers && s'.peers[d.ic].keys == Some(r.value.secured.keys)
            && s'.peers[d.ic].suite == Agreed(m, scfg, addr).value.suite
  {
    hide Lawful, Checked, Configured, ServerOk, HeaderOf, RoundedAll, Proceed, Snapshot, Deliverable, Trusting, Story,
      MemberPeer, ServerPeer, Expired, FirstRequest, SharedOk, Agreed, GetsThrough, FirstService, SentBy;
    var ats := FirstServices(rounds);
    var s1, x := HonestRunCompletes(m, scfg, s, addr, g, d, idm, ids, ats);
    assert AllThrough(ats) == LossFree(rounds);
    RequestSentBy(m, d);
    LossyRegistration(m, g, d, scfg, s, s, addr, Opening, FirstRequest(m, d.ic), rounds);
  }

  function FirstServices(rounds: seq<seq<Fate>>): (r: seq<Service>)
    requires AllGetThrough(rounds)
    ensures |r| == |rounds| && forall k :: 0 <= k < |r| ==> r[k] == FirstService(rounds[k])
  {
    seq(|rounds|, k requires 0 <= k < |rounds| => FirstService(rounds[k]))
  }

  lemma RequestSentBy(m: MemberConfig, d: MemberDraw)
    ensures SentBy(FirstRequest(m, d.ic), d.ic)
  {
    hide Message, SentBy, OwnSa;
    MessageSentBy(MainHeader(d.ic, NO_COOKIE), [Payload(P_SA, OwnSa(m))]);
  }
}
