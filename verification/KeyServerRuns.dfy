/** What holds of the key server over every sequence of datagrams, from any
    addresses, with the groups changing underneath (src/gdoi/server.rs). */
module KeyServerRuns {
  import opened Octets
  import opened Isakmp
  import opened IkeCrypto
  import opened Exchange
  import opened Teks
  import opened Groups
  import opened KeyServer

  datatype Input =
    | Datagram(msg: octets, addr: Addr, now: nat, draw: Draw, kept: Peers)
    | GroupsChange(groups: GroupTable)

  lemma BeginKeeps(cfg: ServerConfig, s: ServerState, h: Header, msg: octets, addr: Addr, now: nat, draw: Draw, kept: Peers)
    requires Configured(cfg) && ServerOk(cfg, s) && draw.rc != NO_COOKIE && Expired(s.peers, now, kept)
    requires h.exchange == XCHG_MAIN && h.rc == NO_COOKIE
    ensures ServerOk(cfg, BeginIn(cfg, s, h, msg, addr, now, draw, kept).0)
  {
    hide ResponderStep, Settle, Configured, Expired, ResponderOk, Negotiated, ServerOk, PeerOk;
    var r := NewResponder(s.sessions, addr, h.ic, draw.rc, now);
    NewIsOk(cfg, s, kept, now, s.sessions, addr, h.ic, draw.rc);
    SettleIsOk(cfg, s.(peers := kept[h.ic := r], sessions := s.sessions + 1), h.ic, r, h, msg, draw);
  }

  lemma ProgressKeeps(cfg: ServerConfig, s: ServerState, h: Header, msg: octets, now: nat, draw: Draw)
    requires Configured(cfg) && ServerOk(cfg, s) && h.ic in s.peers && h.rc == s.peers[h.ic].rc
    ensures var r := s.peers[h.ic].(touched := now);
            && ResponderOk(cfg, r) && Negotiated(cfg, r) && h.rc != NO_COOKIE
            && ServerOk(cfg, Settle(cfg, s, h.ic, ResponderStep(cfg, r, h, msg, s.groups, draw), msg, draw).0)
  {
    hide ResponderStep, Settle, Configured, ResponderOk, Negotiated;
    assert PeerOk(cfg, h.ic, s.peers[h.ic]);
    TouchStep(cfg, s.peers[h.ic], now);
    SettleIsOk(cfg, s, h.ic, s.peers[h.ic].(touched := now), h, msg, draw);
  }

  lemma HandleKeeps(cfg: ServerConfig, s: ServerState, msg: octets, addr: Addr, now: nat, draw: Draw, kept: Peers)
    requires Configured(cfg) && ServerOk(cfg, s) && draw.rc != NO_COOKIE
    requires Expired(s.peers, now, kept) || (HeaderOf(msg).Ok? && HeaderOf(msg).value.ic in s.peers)
    ensures ServerOk(cfg, HandleIn(cfg, s, msg, addr, now, draw, kept).0)
  {
    hide ResponderStep, Settle, BeginIn, Configured, Expired, ServerOk;
    if HeaderOf(msg).Ok? {
      var h := HeaderOf(msg).value;
      if h.ic !in s.peers {
        if h.exchange == XCHG_MAIN && h.rc == NO_COOKIE { BeginKeeps(cfg, s, h, msg, addr, now, draw, kept); }
      } else {
        TouchIsOk(cfg, s, h.ic, now);
        if h.rc == s.peers[h.ic].rc { ProgressKeeps(cfg, s, h, msg, now, draw); }
      }
    }
  }

  /** One input; what expiry leaves must be what it may leave. */
  ghost function NextState(cfg: ServerConfig, s: ServerState, input: Input): (s': ServerState)
    requires Configured(cfg) && ServerOk(cfg, s)
    ensures ServerOk(cfg, s')
  {
    hide HandleIn, Configured, Expired;
    match input
    case GroupsChange(groups) => s.(groups := groups)
    case Datagram(msg, addr, now, draw, kept) =>
      if draw.rc == NO_COOKIE || !Expired(s.peers, now, kept) then s
      else
        HandleKeeps(cfg, s, msg, addr, now, draw, kept);
        HandleIn(cfg, s, msg, addr, now, draw, kept).0
  }

  /** Every run keeps the server's bounds and every responder's stage: at most
      4096 peers, at most 16 exchanges each, nothing missing that a later step
      takes for granted. */
  ghost function RunServer(cfg: ServerConfig, groups: GroupTable, inputs: seq<Input>): (s: ServerState)
    requires Configured(cfg)
    ensures ServerOk(cfg, s)
  {
    hide NextState, Configured;
    if inputs == [] then ServerState(groups, map[], 0, [])
    else NextState(cfg, RunServer(cfg, groups, inputs[..|inputs| - 1]), inputs[|inputs| - 1])
  }

  lemma RunBounds(cfg: ServerConfig, groups: GroupTable, inputs: seq<Input>, ic: cookie)
    requires Configured(cfg)
    ensures var s := RunServer(cfg, groups, inputs);
            && |s.peers| <= MAX_PEERS
            && (ic in s.peers ==>
                  var r := s.peers[ic];
                  && |r.pulls| <= MAX_PULLS
                  && (r.stage != AwaitingKe ==> r.keys.Some? && r.dh.Some?)
                  && (r.stage == Established ==> r.peer.Some? && r.keys.value.last.Some?))
  {
    hide RunServer;
    var s := RunServer(cfg, groups, inputs);
    if ic in s.peers { assert PeerOk(cfg, ic, s.peers[ic]); }
  }

  // ---- The order of events.

  predicate IsRegistered(e: Event, session: nat, mid: u32) { e.Registered? && e.session == session && e.msgId == mid }

  ghost predicate NotYet(log: seq<Event>, session: nat, mid: u32)
  {
    forall i :: 0 <= i < |log| ==> !IsRegistered(log[i], session, mid)
  }

  /** HASH(1) verified and then the group authorised. */
  ghost predicate Prepared(log: seq<Event>, session: nat, mid: u32, peer: Peer, g: GroupId)
  {
    exists a, b :: 0 <= a < b < |log| && log[a] == Hash1Verified(session, mid) && log[b] == Authorised(session, mid, peer, g)
  }

  /** What came before an event. */
  ghost predicate Earned(cfg: ServerConfig, log: seq<Event>, i: nat)
    requires i < |log|
  {
    match log[i]
    case Registered(session, mid, peer, g, _) =>
      && NotYet(log[..i], session, mid)
      && i > 0 && log[i - 1] == Hash3Verified(session, mid)
      && Prepared(log[..i - 1], session, mid, peer, g)
    case Authorised(session, _, peer, g) => cfg.authorize(peer, g) && PeerAuthenticated(session, peer) in log[..i]
    case _ => true
  }

  ghost predicate LogOk(cfg: ServerConfig, log: seq<Event>) { forall i :: 0 <= i < |log| ==> Earned(cfg, log, i) }

  ghost predicate PullLogged(log: seq<Event>, session: nat, peer: Peer, mid: u32, p: PullState)
  {
    && (p.ni != [] ==> p.group.Some? && Prepared(log, session, mid, peer, p.group.value))
    && (!p.done ==> NotYet(log, session, mid))
  }

  ghost predicate PeerLogged(log: seq<Event>, r: Responder)
  {
    && (r.stage == Established ==> r.peer.Some? && PeerAuthenticated(r.session, r.peer.value) in log)
    && (r.stage != Established ==> r.pulls == map[])
    && (forall mid :: mid in r.pulls ==> r.peer.Some? && PullLogged(log, r.session, r.peer.value, mid, r.pulls[mid]))
    && (forall mid :: mid !in r.pulls ==> NotYet(log, r.session, mid))
  }

  ghost predicate SessionsOk(s: ServerState)
  {
    && (forall ic :: ic in s.peers ==> s.peers[ic].session < s.sessions)
    && (forall a, b :: a in s.peers && b in s.peers && s.peers[a].session == s.peers[b].session ==> a == b)
    && (forall i :: 0 <= i < |s.log| ==> s.log[i].session < s.sessions)
  }

  ghost predicate RunOk(cfg: ServerConfig, s: ServerState)
  {
    SessionsOk(s) && LogOk(cfg, s.log) && forall ic :: ic in s.peers ==> PeerLogged(s.log, s.peers[ic])
  }

  // ---- Growing the log.

  lemma PreparedGrows(log: seq<Event>, es: seq<Event>, session: nat, mid: u32, peer: Peer, g: GroupId)
    requires Prepared(log, session, mid, peer, g)
    ensures Prepared(log + es, session, mid, peer, g)
  {
    var a, b :| 0 <= a < b < |log| && log[a] == Hash1Verified(session, mid) && log[b] == Authorised(session, mid, peer, g);
    var log' := log + es;
    assert log'[a] == log[a] && log'[b] == log[b];
  }

  lemma NotYetGrows(log: seq<Event>, es: seq<Event>, session: nat, mid: u32)
    requires NotYet(log, session, mid) && NotYet(es, session, mid)
    ensures NotYet(log + es, session, mid)
  {
  }

  /** Events of another session leave a peer's record as it is. */
  lemma OtherSession(log: seq<Event>, es: seq<Event>, r: Responder)
    requires PeerLogged(log, r) && forall i :: 0 <= i < |es| ==> es[i].session != r.session
    ensures PeerLogged(log + es, r)
  {
    forall mid | mid in r.pulls ensures PullLogged(log + es, r.session, r.peer.value, mid, r.pulls[mid]) {
      PullGrows(log, es, r.session, r.peer.value, mid, r.pulls[mid]);
    }
    forall mid | mid !in r.pulls ensures NotYet(log + es, r.session, mid) {
      NotYetGrows(log, es, r.session, mid);
    }
  }

  lemma PullGrows(log: seq<Event>, es: seq<Event>, session: nat, peer: Peer, mid: u32, p: PullState)
    requires PullLogged(log, session, peer, mid, p) && NotYet(es, session, mid)
    ensures PullLogged(log + es, session, peer, mid, p)
  {
    if p.ni != [] { PreparedGrows(log, es, session, mid, peer, p.group.value); }
    if !p.done { NotYetGrows(log, es, session, mid); }
  }

  lemma EarnedStays(cfg: ServerConfig, log: seq<Event>, es: seq<Event>, i: nat)
    requires i < |log| && Earned(cfg, log, i)
    ensures Earned(cfg, log + es, i)
  {
    assert (log + es)[..i] == log[..i];
    if i > 0 { assert (log + es)[..i - 1] == log[..i - 1]; }
  }

  /** How a step may extend the log. */
  ghost predicate Extends(cfg: ServerConfig, log: seq<Event>, es: seq<Event>)
  {
    || (forall i :: 0 <= i < |es| ==> es[i].PeerAuthenticated? || es[i].Hash1Verified?)
    || (exists session, mid, peer, g ::
          && es == [Hash1Verified(session, mid), Authorised(session, mid, peer, g)]
          && cfg.authorize(peer, g) && PeerAuthenticated(session, peer) in log)
    || (exists session, mid, peer, g, teks ::
          && es == [Hash3Verified(session, mid), Registered(session, mid, peer, g, teks)]
          && NotYet(log, session, mid) && Prepared(log, session, mid, peer, g))
  }

  lemma LogGrows(cfg: ServerConfig, log: seq<Event>, es: seq<Event>)
    requires LogOk(cfg, log) && Extends(cfg, log, es)
    ensures LogOk(cfg, log + es)
  {
    var log' := log + es;
    forall i | 0 <= i < |log'| ensures Earned(cfg, log', i) {
      if i < |log| {
        EarnedStays(cfg, log, es, i);
      } else {
        assert log'[i] == es[i - |log|];
        if i == |log| + 1 { TwoAppended(cfg, log, es); }
      }
    }
  }

  lemma TwoAppended(cfg: ServerConfig, log: seq<Event>, es: seq<Event>)
    requires Extends(cfg, log, es) && |es| >= 2
    ensures Earned(cfg, log + es, |log| + 1)
  {
    var log', i := log + es, |log| + 1;
    assert log'[i] == es[1] && log'[i - 1] == es[0];
    assert log'[..i] == log + [es[0]] && log'[..i - 1] == log;
    if log'[i].Registered? {
      NotYetGrows(log, [es[0]], log'[i].session, log'[i].msgId);
    }
  }

  // ---- One step of a responder.

  lemma PullExtends(
    cfg: ServerConfig, r: Responder, p: PullState, h: Header, msg: octets, groups: GroupTable, draw: Draw,
    log: seq<Event>)
    requires r.keys.Some? && r.peer.Some? && !p.done
    requires PeerAuthenticated(r.session, r.peer.value) in log
    requires PullLogged(log, r.session, r.peer.value, h.msgId, p)
    ensures var out := PullStep(cfg, r, p, h, msg, groups, draw);
            && (forall i :: 0 <= i < |out.events| ==> out.events[i].session == r.session)
            && (forall mid :: mid != h.msgId ==> NotYet(out.events, r.session, mid))
            && Extends(cfg, log, out.events)
            && PullLogged(log + out.events, r.session, r.peer.value, h.msgId, out.p)
  {
    hide Open, Hashed, PullPolicy, PullKeys, PullMac, Prepared, NotYet, Extends;
    NothingExtends(cfg, log, r.session);
    var mid, peer, res := h.msgId, r.peer.value, Open(cfg.c, r.keys, msg, p.iv);
    if res.Ok? && Hashed(res.value).Ok? {
      var o := res.value;
      var (hp, rest, covered) := Hashed(o).value;
      if p.ni == [] && hp.body == PullMac(cfg.c, r.keys.value, mid, covered) {
        PolicyExtends(cfg, r, p, mid, msg, rest, o.nextIv, groups, draw, log);
      } else if p.ni != [] && hp.body == PullMac(cfg.c, r.keys.value, mid, p.ni + p.nr + covered) {
        KeysExtend(cfg, r, p, mid, msg, o.nextIv, groups, log);
      }
    }
  }

  lemma NothingExtends(cfg: ServerConfig, log: seq<Event>, session: nat)
    ensures Extends(cfg, log, []) && log + [] == log && forall mid :: NotYet([], session, mid)
  {
  }

  lemma PolicyExtends(
    cfg: ServerConfig, r: Responder, p: PullState, mid: u32, msg: octets, rest: seq<Payload>, iv: block,
    groups: GroupTable, draw: Draw, log: seq<Event>)
    requires r.keys.Some? && r.peer.Some? && !p.done && p.ni == []
    requires PeerAuthenticated(r.session, r.peer.value) in log
    requires PullLogged(log, r.session, r.peer.value, mid, p)
    ensures var out := PullPolicy(cfg, r, p, mid, msg, rest, iv, groups, draw);
            && (forall i :: 0 <= i < |out.events| ==> out.events[i].session == r.session)
            && (forall m :: NotYet(out.events, r.session, m))
            && Extends(cfg, log, out.events)
            && PullLogged(log + out.events, r.session, r.peer.value, mid, out.p)
  {
    hide PullPolicy;
    var out := PullPolicy(cfg, r, p, mid, msg, rest, iv, groups, draw);
    var es, peer := out.events, r.peer.value;
    NotYetGrows(log, es, r.session, mid);
    if out.reply.Ok? {
      var g := out.p.group.value;
      var log' := log + es;
      assert log'[|log|] == Hash1Verified(r.session, mid) && log'[|log| + 1] == Authorised(r.session, mid, peer, g);
    }
  }

  lemma KeysExtend(
    cfg: ServerConfig, r: Responder, p: PullState, mid: u32, msg: octets, iv: block, groups: GroupTable,
    log: seq<Event>)
    requires r.keys.Some? && r.peer.Some? && !p.done && p.ni != []
    requires PullLogged(log, r.session, r.peer.value, mid, p)
    ensures var out := PullKeys(cfg, r, p, mid, msg, iv, groups);
            && (forall i :: 0 <= i < |out.events| ==> out.events[i].session == r.session)
            && (forall m :: m != mid ==> NotYet(out.events, r.session, m))
            && Extends(cfg, log, out.events)
            && PullLogged(log + out.events, r.session, r.peer.value, mid, out.p)
  {
    hide Sealed, KdBody, PullMac;
    var out := PullKeys(cfg, r, p, mid, msg, iv, groups);
    PreparedGrows(log, out.events, r.session, mid, r.peer.value, p.group.value);
  }

  lemma PullKeepsLog(
    cfg: ServerConfig, r: Responder, h: Header, msg: octets, groups: GroupTable, draw: Draw, log: seq<Event>)
    requires ResponderOk(cfg, r) && r.stage == Established && PeerLogged(log, r)
    ensures var out := Pull(cfg, r, h, msg, groups, draw);
            && (forall i :: 0 <= i < |out.events| ==> out.events[i].session == r.session)
            && Extends(cfg, log, out.events)
            && PeerLogged(log + out.events, out.r)
  {
    hide PullStep, FreshPull;
    var out := Pull(cfg, r, h, msg, groups, draw);
    var mid := h.msgId;
    var es := out.events;
    var refused := (mid in r.pulls && ((r.pulls[mid].lastReq != [] && msg == r.pulls[mid].lastReq) || r.pulls[mid].done))
                   || (mid !in r.pulls && |r.pulls| >= MAX_PULLS);
    if refused {
      assert es == [] && log + es == log;
    } else {
      var p := if mid in r.pulls then r.pulls[mid] else FreshPull(cfg.c, r.keys.value, mid);
      FreshIsLogged(cfg, r, mid, log);
      PullExtends(cfg, r, p, h, msg, groups, draw, log);
      forall m | m in out.r.pulls ensures PullLogged(log + es, r.session, r.peer.value, m, out.r.pulls[m]) {
        if m != mid { PullGrows(log, es, r.session, r.peer.value, m, r.pulls[m]); }
      }
      forall m | m !in out.r.pulls ensures NotYet(log + es, r.session, m) {
        NotYetGrows(log, es, r.session, m);
      }
    }
  }

  lemma FreshIsLogged(cfg: ServerConfig, r: Responder, mid: u32, log: seq<Event>)
    requires r.keys.Some? && r.peer.Some?
    ensures var p := FreshPull(cfg.c, r.keys.value, mid);
            p.ni == [] && !p.done && (NotYet(log, r.session, mid) ==> PullLogged(log, r.session, r.peer.value, mid, p))
  {
    hide Phase2Iv;
  }

  lemma StepKeepsLog(
    cfg: ServerConfig, r: Responder, h: Header, msg: octets, groups: GroupTable, draw: Draw, log: seq<Event>)
    requires Configured(cfg) && ResponderOk(cfg, r) && PeerLogged(log, r)
    requires h.rc != NO_COOKIE ==> Negotiated(cfg, r)
    requires h.rc == NO_COOKIE ==> r.stage == AwaitingKe
    ensures var out := ResponderStep(cfg, r, h, msg, groups, draw);
            && (forall i :: 0 <= i < |out.events| ==> out.events[i].session == r.session)
            && Extends(cfg, log, out.events)
            && PeerLogged(log + out.events, out.r)
  {
    hide MainAuth, MainKe, MainSa, Pull, Prepared;
    var out := ResponderStep(cfg, r, h, msg, groups, draw);
    var es := out.events;
    if h.exchange == XCHG_PULL && r.stage == Established {
      PullKeepsLog(cfg, r, h, msg, groups, draw, log);
    } else {
      StepKeeps(cfg, r, h, msg, groups, draw);
      if h.exchange == XCHG_MAIN && r.stage == AwaitingKe && h.rc == NO_COOKIE {
        SaKeeps(cfg, r, msg);
      } else if h.exchange == XCHG_MAIN && r.stage == AwaitingKe {
        KeKeeps(cfg, r, msg, draw);
      }
      if es == [] {
        assert log + es == log;
      } else {
        assert PeerAuthenticated(r.session, out.r.peer.value) in log + es;
        forall mid ensures NotYet(log + es, r.session, mid) { NotYetGrows(log, es, r.session, mid); }
      }
    }
  }

  // ---- One datagram.

  lemma SettleKeeps(cfg: ServerConfig, s: ServerState, ic: cookie, r: Responder, h: Header, msg: octets, draw: Draw)
    requires Configured(cfg) && ic in s.peers && ResponderOk(cfg, r) && PeerLogged(s.log, r)
    requires h.rc != NO_COOKIE ==> Negotiated(cfg, r)
    requires h.rc == NO_COOKIE ==> r.stage == AwaitingKe
    requires SessionsOk(s) && LogOk(cfg, s.log) && s.peers[ic].session == r.session
    requires forall k :: k in s.peers && k != ic ==> PeerLogged(s.log, s.peers[k])
    ensures RunOk(cfg, Settle(cfg, s, ic, ResponderStep(cfg, r, h, msg, s.groups, draw), msg, draw).0)
  {
    hide ResponderStep, Informational, PeerLogged, LogOk, Extends, ResponderOk, Negotiated, Configured, SessionsOk;
    var out := ResponderStep(cfg, r, h, msg, s.groups, draw);
    StepKeeps(cfg, r, h, msg, s.groups, draw);
    StepKeepsLog(cfg, r, h, msg, s.groups, draw, s.log);
    var es := out.events;
    LogGrows(cfg, s.log, es);
    OthersKeep(s, ic, es, r.session);
    if out.reply.Ok? && out.reply.value.Some? {
      RecordLogged(s.log + es, out.r, msg, out.reply.value.value);
    }
    SettleSessions(cfg, s, ic, out, msg, draw);
  }

  lemma OthersKeep(s: ServerState, ic: cookie, es: seq<Event>, session: nat)
    requires SessionsOk(s) && ic in s.peers && s.peers[ic].session == session
    requires forall i :: 0 <= i < |es| ==> es[i].session == session
    requires forall k :: k in s.peers && k != ic ==> PeerLogged(s.log, s.peers[k])
    ensures forall k :: k in s.peers && k != ic ==> PeerLogged(s.log + es, s.peers[k])
  {
    hide PeerLogged;
    forall k | k in s.peers && k != ic ensures PeerLogged(s.log + es, s.peers[k]) {
      OtherSession(s.log, es, s.peers[k]);
    }
  }

  lemma SettleSessions(cfg: ServerConfig, s: ServerState, ic: cookie, out: Outcome, msg: octets, draw: Draw)
    requires SessionsOk(s) && ic in s.peers && out.r.session == s.peers[ic].session
    requires forall i :: 0 <= i < |out.events| ==> out.events[i].session == out.r.session
    ensures SessionsOk(Settle(cfg, s, ic, out, msg, draw).0)
  {
    hide Informational, SessionsOk;
    SessionsStay(s, ic, Settle(cfg, s, ic, out, msg, draw).0);
  }

  lemma SessionsStay(s: ServerState, ic: cookie, s': ServerState)
    requires SessionsOk(s) && s'.sessions == s.sessions && ic in s.peers
    requires forall k :: k in s'.peers ==> k in s.peers && s'.peers[k].session == s.peers[k].session
    requires |s.log| <= |s'.log| && s'.log[..|s.log|] == s.log
    requires forall i :: |s.log| <= i < |s'.log| ==> s'.log[i].session == s.peers[ic].session
    ensures SessionsOk(s')
  {
    forall i | 0 <= i < |s'.log| ensures s'.log[i].session < s'.sessions {
      if i < |s.log| { assert s'.log[i] == s.log[i]; }
    }
  }

  lemma RecordLogged(log: seq<Event>, r: Responder, req: octets, resp: octets)
    requires PeerLogged(log, r)
    ensures PeerLogged(log, r.(lastReq := req, lastResp := resp))
  {
  }

  lemma TouchLogged(log: seq<Event>, r: Responder, now: nat)
    requires PeerLogged(log, r)
    ensures PeerLogged(log, r.(touched := now))
  {
  }

  lemma NewLogged(s: ServerState, addr: Addr, ic: cookie, rc: cookie, now: nat)
    requires SessionsOk(s)
    ensures PeerLogged(s.log, NewResponder(s.sessions, addr, ic, rc, now))
  {
  }

  lemma BeginKeepsLog(cfg: ServerConfig, s: ServerState, h: Header, msg: octets, addr: Addr, now: nat, draw: Draw, kept: Peers)
    requires Configured(cfg) && ServerOk(cfg, s) && draw.rc != NO_COOKIE && Expired(s.peers, now, kept) && RunOk(cfg, s)
    requires h.rc == NO_COOKIE
    ensures var r := NewResponder(s.sessions, addr, h.ic, draw.rc, now);
            var s' := s.(peers := kept[h.ic := r], sessions := s.sessions + 1);
            RunOk(cfg, Settle(cfg, s', h.ic, ResponderStep(cfg, r, h, msg, s.groups, draw), msg, draw).0)
  {
    hide ResponderStep, Settle, Configured, PeerLogged, LogOk, ResponderOk, Negotiated, Expired, SessionsOk;
    var r := NewResponder(s.sessions, addr, h.ic, draw.rc, now);
    NewIsOk(cfg, s, kept, now, s.sessions, addr, h.ic, draw.rc);
    NewLogged(s, addr, h.ic, draw.rc, now);
    NewSessions(s, kept, now, r);
    SettleKeeps(cfg, s.(peers := kept[h.ic := r], sessions := s.sessions + 1), h.ic, r, h, msg, draw);
  }

  lemma NewSessions(s: ServerState, kept: Peers, now: nat, r: Responder)
    requires SessionsOk(s) && Expired(s.peers, now, kept) && r.session == s.sessions
    requires forall ic :: ic in s.peers ==> PeerLogged(s.log, s.peers[ic])
    ensures SessionsOk(s.(peers := kept[r.ic := r], sessions := s.sessions + 1))
    ensures forall k :: k in kept && k != r.ic ==> PeerLogged(s.log, kept[k])
  {
    hide PeerLogged;
  }

  lemma ReplayKeepsLog(cfg: ServerConfig, s: ServerState, ic: cookie, now: nat)
    requires RunOk(cfg, s) && ic in s.peers
    ensures RunOk(cfg, s.(peers := s.peers[ic := s.peers[ic].(touched := now)]))
  {
    hide PeerLogged, LogOk;
    TouchLogged(s.log, s.peers[ic], now);
  }

  lemma HandleKeepsLog(cfg: ServerConfig, s: ServerState, msg: octets, addr: Addr, now: nat, draw: Draw, kept: Peers)
    requires Configured(cfg) && ServerOk(cfg, s) && draw.rc != NO_COOKIE && Expired(s.peers, now, kept) && RunOk(cfg, s)
    ensures RunOk(cfg, HandleIn(cfg, s, msg, addr, now, draw, kept).0)
  {
    hide ResponderStep, Settle, Configured, PeerLogged, LogOk, ResponderOk, Negotiated, Expired, NewResponder, SessionsOk;
    if HeaderOf(msg).Ok? {
      var h := HeaderOf(msg).value;
      if h.ic !in s.peers {
        if h.exchange == XCHG_MAIN && h.rc == NO_COOKIE { BeginKeepsLog(cfg, s, h, msg, addr, now, draw, kept); }
      } else {
        var r := s.peers[h.ic];
        ReplayKeepsLog(cfg, s, h.ic, now);
        if r.addr == addr && h.rc == r.rc {
          TouchLogged(s.log, r, now);
          TouchStep(cfg, r, now);
          SettleKeeps(cfg, s, h.ic, r.(touched := now), h, msg, draw);
        }
      }
    }
  }

  lemma {:induction false} RunKeepsLog(cfg: ServerConfig, groups: GroupTable, inputs: seq<Input>)
    requires Configured(cfg)
    ensures RunOk(cfg, RunServer(cfg, groups, inputs))
  {
    hide HandleIn, Configured, Expired, ServerOk, LogOk, PeerLogged;
    if inputs != [] {
      var s, input := RunServer(cfg, groups, inputs[..|inputs| - 1]), inputs[|inputs| - 1];
      RunKeepsLog(cfg, groups, inputs[..|inputs| - 1]);
      if input.Datagram? && input.draw.rc != NO_COOKIE && Expired(s.peers, input.now, input.kept) {
        HandleKeepsLog(cfg, s, input.msg, input.addr, input.now, input.draw, input.kept);
      }
    } else {
      EmptyLog(cfg);
    }
  }

  lemma EmptyLog(cfg: ServerConfig)
    ensures LogOk(cfg, [])
  {
  }

  lemma OnlyOnce(cfg: ServerConfig, log: seq<Event>, i: nat, j: nat, session: nat, mid: u32)
    requires LogOk(cfg, log) && i < j < |log| && IsRegistered(log[i], session, mid)
    ensures !IsRegistered(log[j], session, mid)
  {
    assert Earned(cfg, log, j);
    assert log[..j][i] == log[i];
  }

  lemma EarnedBy(cfg: ServerConfig, log: seq<Event>, i: nat) returns (a: nat, b: nat)
    requires LogOk(cfg, log) && i < |log| && log[i].Registered?
    ensures var e := log[i];
            && a < b < i - 1 && log[a] == Hash1Verified(e.session, e.msgId)
            && log[b] == Authorised(e.session, e.msgId, e.peer, e.group)
            && log[i - 1] == Hash3Verified(e.session, e.msgId)
            && cfg.authorize(e.peer, e.group) && PeerAuthenticated(e.session, e.peer) in log[..b]
  {
    assert Earned(cfg, log, i);
    var e, before := log[i], log[..i - 1];
    a, b :| 0 <= a < b < |before| && before[a] == Hash1Verified(e.session, e.msgId)
            && before[b] == Authorised(e.session, e.msgId, e.peer, e.group);
    assert Earned(cfg, log, b);
  }

  /** However the datagrams come: a registration is told only right after its
      HASH(3) verified, after the server authorised that peer for that group,
      after its HASH(1) verified, after the peer was authenticated; and at most
      once for each exchange. */
  lemma RegistrationsEarned(cfg: ServerConfig, groups: GroupTable, inputs: seq<Input>, i: nat)
    requires Configured(cfg) && i < |RunServer(cfg, groups, inputs).log|
    ensures var log := RunServer(cfg, groups, inputs).log;
            log[i].Registered? ==>
              var e := log[i];
              && cfg.authorize(e.peer, e.group)
              && (exists a, b ::
                    && 0 <= a < b < i - 1 && log[a] == Hash1Verified(e.session, e.msgId)
                    && log[b] == Authorised(e.session, e.msgId, e.peer, e.group)
                    && PeerAuthenticated(e.session, e.peer) in log[..b])
              && log[i - 1] == Hash3Verified(e.session, e.msgId)
              && forall j :: 0 <= j < |log| && IsRegistered(log[j], e.session, e.msgId) ==> j == i
  {
    hide RunServer, Configured, LogOk;
    RunKeepsLog(cfg, groups, inputs);
    var log := RunServer(cfg, groups, inputs).log;
    if log[i].Registered? {
      var e := log[i];
      var a, b := EarnedBy(cfg, log, i);
      forall j | 0 <= j < |log| && j != i ensures !IsRegistered(log[j], e.session, e.msgId) {
        if j < i {
          if IsRegistered(log[j], e.session, e.msgId) { OnlyOnce(cfg, log, j, i, e.session, e.msgId); }
        } else {
          OnlyOnce(cfg, log, i, j, e.session, e.msgId);
        }
      }
    }
  }
}
