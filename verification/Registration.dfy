/** A whole registration over a link that may lose messages, and what the
    server's memory of its last replies makes of it (src/gdoi/server.rs,
    src/gdoi/member.rs). */
module Registration {
  import opened Octets
  import opened Isakmp
  import opened IkeCrypto
  import opened Exchange
  import opened Teks
  import opened Groups
  import opened KeyServer
  import opened KeyServerRuns
  import opened GroupMember

  /** When the server gets a datagram, what it draws, and what expiry leaves. */
  datatype Service = Service(now: nat, draw: Draw, kept: Peers)

  /** Whether a service can take place: there is room for a new exchange. */
  ghost predicate Possible(s: ServerState, msg: octets, at: Service)
  {
    && at.draw.rc != NO_COOKIE
    && (Expired(s.peers, at.now, at.kept) || (HeaderOf(msg).Ok? && HeaderOf(msg).value.ic in s.peers))
  }

  ghost function Serve(cfg: ServerConfig, s: ServerState, msg: octets, addr: Addr, at: Service)
    : (out: (ServerState, Option<octets>))
    requires Configured(cfg) && ServerOk(cfg, s)
    ensures ServerOk(cfg, out.0)
  {
    hide HandleIn, Configured, ServerOk, Expired, HeaderOf;
    if !Possible(s, msg, at) then (s, None)
    else
      HandleKeeps(cfg, s, msg, addr, at.now, at.draw, at.kept);
      HandleIn(cfg, s, msg, addr, at.now, at.draw, at.kept)
  }

  // ---- Replays.

  function Touch(s: ServerState, ic: cookie, now: nat): ServerState
    requires ic in s.peers
  {
    s.(peers := s.peers[ic := s.peers[ic].(touched := now)])
  }

  /** The last request a peer was answered on, and the reply. */
  ghost predicate Remembers(s: ServerState, msg: octets, addr: Addr, reply: octets)
  {
    && HeaderOf(msg).Ok?
    && var ic := HeaderOf(msg).value.ic;
       ic in s.peers && s.peers[ic].addr == addr && s.peers[ic].lastReq == msg && s.peers[ic].lastResp == reply
  }

  /** The remembered request gets the same reply again, and nothing changes but
      the time the peer was last heard. */
  lemma ReplayReplies(cfg: ServerConfig, s: ServerState, msg: octets, addr: Addr, at: Service, reply: octets)
    requires Configured(cfg) && ServerOk(cfg, s) && Remembers(s, msg, addr, reply) && at.draw.rc != NO_COOKIE
    ensures Serve(cfg, s, msg, addr, at) == (Touch(s, HeaderOf(msg).value.ic, at.now), Some(reply))
    ensures Remembers(Touch(s, HeaderOf(msg).value.ic, at.now), msg, addr, reply)
  {
    hide ResponderStep, Settle, Configured, ServerOk, Expired;
    assert msg != [];
  }

  predicate IsInformational(msg: octets) { HeaderOf(msg).Ok? && HeaderOf(msg).value.exchange == XCHG_INFO }

  lemma InformationalIsMarked(c: Crypto, keys: Option<Keys>, ic: cookie, rc: cookie, kind: u16, msgId: u32)
    ensures var msg := Informational(c, keys, ic, rc, kind, msgId); HeaderOf(msg).Ok? ==> IsInformational(msg)
  {
    hide EncodeChain, Encrypt, NotifyBody, U32Octets, U32Of;
    var msg := Informational(c, keys, ic, rc, kind, msgId);
    assert msg[18] == XCHG_INFO;
  }

  /** What the server answers, notifications apart, it remembers. */
  lemma AnswerIsRemembered(cfg: ServerConfig, s: ServerState, msg: octets, addr: Addr, at: Service)
    requires Configured(cfg) && ServerOk(cfg, s)
    requires var (_, reply) := Serve(cfg, s, msg, addr, at);
             reply.Some? && HeaderOf(reply.value).Ok? && !IsInformational(reply.value)
    ensures var (s', reply) := Serve(cfg, s, msg, addr, at); Remembers(s', msg, addr, reply.value)
  {
    hide ResponderStep, Informational, Configured, ServerOk, Expired, IsInformational;
    var h := HeaderOf(msg).value;
    if h.ic !in s.peers {
      var r := NewResponder(s.sessions, addr, h.ic, at.draw.rc, at.now);
      var s' := s.(peers := at.kept[h.ic := r], sessions := s.sessions + 1);
      NewStepOk(cfg, s, at, h, addr);
      SettleRemembers(cfg, s', r, h, msg, at);
    } else {
      var r := s.peers[h.ic];
      if !(r.lastReq != [] && msg == r.lastReq) {
        ExistingStepOk(cfg, s, h, at.now);
        SettleRemembers(cfg, s, r.(touched := at.now), h, msg, at);
      }
    }
  }

  lemma NewStepOk(cfg: ServerConfig, s: ServerState, at: Service, h: Header, addr: Addr)
    ensures ResponderOk(cfg, NewResponder(s.sessions, addr, h.ic, at.draw.rc, at.now))
  {
  }

  lemma ExistingStepOk(cfg: ServerConfig, s: ServerState, h: Header, now: nat)
    requires ServerOk(cfg, s) && h.ic in s.peers
    ensures var r := s.peers[h.ic].(touched := now);
            ResponderOk(cfg, r) && Negotiated(cfg, r) && r.rc != NO_COOKIE && r.ic == h.ic
  {
    assert PeerOk(cfg, h.ic, s.peers[h.ic]);
    TouchStep(cfg, s.peers[h.ic], now);
  }

  lemma SettleRemembers(cfg: ServerConfig, s: ServerState, r: Responder, h: Header, msg: octets, at: Service)
    requires Configured(cfg) && ResponderOk(cfg, r) && HeaderOf(msg) == Ok(h)
    requires h.rc != NO_COOKIE ==> Negotiated(cfg, r)
    requires h.rc == NO_COOKIE ==> r.stage == AwaitingKe
    requires var out := ResponderStep(cfg, r, h, msg, s.groups, at.draw);
             var reply := Settle(cfg, s, h.ic, out, msg, at.draw).1;
             reply.Some? && HeaderOf(reply.value).Ok? && !IsInformational(reply.value)
    ensures var out := ResponderStep(cfg, r, h, msg, s.groups, at.draw);
            var (s', reply) := Settle(cfg, s, h.ic, out, msg, at.draw);
            Remembers(s', msg, r.addr, reply.value)
  {
    hide ResponderStep, Informational, IsInformational, Configured, ResponderOk, Negotiated;
    StepKeeps(cfg, r, h, msg, s.groups, at.draw);
    var out := ResponderStep(cfg, r, h, msg, s.groups, at.draw);
    if out.reply.Err? && out.reply.error.Refused? {
      InformationalIsMarked(cfg.c, if out.r.stage == Established then out.r.keys else None, out.r.ic, out.r.rc,
                            out.reply.error.notify, at.draw.msgId);
    }
  }

  /** A request of an earlier pull gets its own reply again, whatever else the
      peer has been answered on since. */
  lemma PullReplayReplies(cfg: ServerConfig, s: ServerState, msg: octets, addr: Addr, at: Service)
    requires Configured(cfg) && ServerOk(cfg, s) && at.draw.rc != NO_COOKIE && HeaderOf(msg).Ok?
    requires var h := HeaderOf(msg).value;
             && h.ic in s.peers && h.exchange == XCHG_PULL
             && var r := s.peers[h.ic];
                && r.addr == addr && r.rc == h.rc && r.stage == Established && r.lastReq != msg
                && h.msgId in r.pulls && r.pulls[h.msgId].lastReq == msg
    ensures var h := HeaderOf(msg).value;
            var r := s.peers[h.ic];
            var reply := r.pulls[h.msgId].lastResp;
            Serve(cfg, s, msg, addr, at)
            == (s.(peers := s.peers[h.ic := r.(touched := at.now, lastReq := msg, lastResp := reply)]), Some(reply))
  {
    hide PullStep, MainSa, MainKe, MainAuth, Configured, Expired, Informational, HeaderOf;
    var h := HeaderOf(msg).value;
    var r := s.peers[h.ic];
    ExistingStepOk(cfg, s, h, at.now);
    var out := ResponderStep(cfg, r.(touched := at.now), h, msg, s.groups, at.draw);
    assert out == Outcome(r.(touched := at.now), Ok(Some(r.pulls[h.msgId].lastResp)), s.groups, []);
    assert s.log + [] == s.log;
  }

  // ---- A link that loses messages.

  /** What becomes of one copy of a request and of the reply to it. */
  datatype Fate = RequestLost | ReplyLost(at: Service) | Through(at: Service)

  /** Every copy but the last is lost on one way or the other. */
  predicate GetsThrough(fates: seq<Fate>)
  {
    && fates != [] && fates[|fates| - 1].Through?
    && (forall i :: 0 <= i < |fates| - 1 ==> !fates[i].Through?)
    && forall i :: 0 <= i < |fates| ==> fates[i].RequestLost? || fates[i].at.draw.rc != NO_COOKIE
  }

  /** The first copy the server gets. */
  function FirstService(fates: seq<Fate>): Service
    requires GetsThrough(fates)
  {
    if fates[0].RequestLost? then FirstService(fates[1..]) else fates[0].at
  }

  /** The server after all copies, and the last reply, which arrives. */
  ghost function Carry(cfg: ServerConfig, s: ServerState, msg: octets, addr: Addr, fates: seq<Fate>)
    : (out: (ServerState, Option<octets>))
    requires Configured(cfg) && ServerOk(cfg, s)
    ensures ServerOk(cfg, out.0)
    decreases |fates|
  {
    hide Serve, Configured, ServerOk;
    if fates == [] then (s, None)
    else if fates[0].RequestLost? then Carry(cfg, s, msg, addr, fates[1..])
    else
      var (s', reply) := Serve(cfg, s, msg, addr, fates[0].at);
      if |fates| == 1 then (s', reply) else Carry(cfg, s', msg, addr, fates[1..])
  }

  lemma {:induction false} ReplaysCarry(cfg: ServerConfig, s: ServerState, msg: octets, addr: Addr, fates: seq<Fate>, reply: octets)
    requires Configured(cfg) && ServerOk(cfg, s) && Remembers(s, msg, addr, reply) && GetsThrough(fates)
    ensures var ic := HeaderOf(msg).value.ic;
            exists t :: Carry(cfg, s, msg, addr, fates) == (Touch(s, ic, t), Some(reply))
    decreases |fates|
  {
    hide Serve, Configured, ServerOk, HeaderOf;
    var ic := HeaderOf(msg).value.ic;
    if fates[0].RequestLost? {
      ReplaysCarry(cfg, s, msg, addr, fates[1..], reply);
    } else {
      var now := fates[0].at.now;
      ReplayReplies(cfg, s, msg, addr, fates[0].at, reply);
      if |fates| == 1 {
        assert Carry(cfg, s, msg, addr, fates) == (Touch(s, ic, now), Some(reply));
      } else {
        ReplaysCarry(cfg, Touch(s, ic, now), msg, addr, fates[1..], reply);
        var t :| Carry(cfg, Touch(s, ic, now), msg, addr, fates[1..]) == (Touch(Touch(s, ic, now), ic, t), Some(reply));
        TouchTouch(s, ic, now, t);
      }
    }
  }

  lemma TouchTouch(s: ServerState, ic: cookie, a: nat, b: nat)
    requires ic in s.peers
    ensures Touch(Touch(s, ic, a), ic, b) == Touch(s, ic, b)
    ensures Touch(s, ic, s.peers[ic].touched) == s
  {
    var r := s.peers[ic];
    assert s.peers[ic := r.(touched := a)][ic := r.(touched := a).(touched := b)] == s.peers[ic := r.(touched := b)];
    assert s.peers[ic := r] == s.peers;
  }

  /** However many copies are lost, the reply is the one the first copy to
      arrive is given, and the server is as after that one copy, but for the
      time it last heard the peer. */
  lemma {:induction false} LossyCarry(cfg: ServerConfig, s: ServerState, msg: octets, addr: Addr, fates: seq<Fate>)
    requires Configured(cfg) && ServerOk(cfg, s) && GetsThrough(fates)
    requires var (_, reply) := Serve(cfg, s, msg, addr, FirstService(fates));
             reply.Some? && HeaderOf(reply.value).Ok? && !IsInformational(reply.value)
    ensures var (s', reply) := Serve(cfg, s, msg, addr, FirstService(fates));
            && Remembers(s', msg, addr, reply.value)
            && exists t :: Carry(cfg, s, msg, addr, fates) == (Touch(s', HeaderOf(msg).value.ic, t), reply)
    decreases |fates|
  {
    hide Serve, Configured, ServerOk, HeaderOf, IsInformational;
    var (s', reply) := Serve(cfg, s, msg, addr, FirstService(fates));
    AnswerIsRemembered(cfg, s, msg, addr, FirstService(fates));
    var ic := HeaderOf(msg).value.ic;
    if fates[0].RequestLost? {
      LossyCarry(cfg, s, msg, addr, fates[1..]);
    } else if |fates| == 1 {
      TouchTouch(s', ic, 0, 0);
      assert Carry(cfg, s, msg, addr, fates) == (Touch(s', ic, s'.peers[ic].touched), reply);
    } else {
      ReplaysCarry(cfg, s', msg, addr, fates[1..], reply.value);
    }
  }

  /** When a peer was last heard makes no difference to a request that is
      answered. */
  lemma TouchIrrelevant(cfg: ServerConfig, s: ServerState, ic: cookie, t: nat, msg: octets, addr: Addr, at: Service)
    requires Configured(cfg) && ServerOk(cfg, s) && ic in s.peers && ServerOk(cfg, Touch(s, ic, t))
    requires HeaderOf(msg).Ok? && HeaderOf(msg).value.ic == ic
    requires Serve(cfg, s, msg, addr, at).1.Some?
    ensures Serve(cfg, Touch(s, ic, t), msg, addr, at) == Serve(cfg, s, msg, addr, at)
  {
    hide ResponderStep, Settle, Configured, ServerOk, Expired;
    var s2, h, r := Touch(s, ic, t), HeaderOf(msg).value, s.peers[ic];
    assert s2.peers[ic].(touched := at.now) == r.(touched := at.now);
    assert s2.peers[ic := r.(touched := at.now)] == s.peers[ic := r.(touched := at.now)];
    if r.addr == addr && h.rc == r.rc {
      ExistingStepOk(cfg, s, h, at.now);
      TouchSettles(cfg, s, ic, t, ResponderStep(cfg, r.(touched := at.now), h, msg, s.groups, at.draw), msg, at.draw);
    }
  }

  lemma TouchSettles(cfg: ServerConfig, s: ServerState, ic: cookie, t: nat, out: Outcome, msg: octets, draw: Draw)
    requires ic in s.peers
    ensures Settle(cfg, Touch(s, ic, t), ic, out, msg, draw) == Settle(cfg, s, ic, out, msg, draw)
  {
    hide Informational;
    var s2 := Touch(s, ic, t);
    assert s2.peers - {ic} == s.peers - {ic};
    assert s2.peers[ic := out.r] == s.peers[ic := out.r];
    if out.reply.Ok? && out.reply.value.Some? {
      var r := out.r.(lastReq := msg, lastResp := out.reply.value.value);
      assert s2.peers[ic := r] == s.peers[ic := r];
    }
  }

  // ---- Other traffic.

  /** A datagram under another cookie, or under none. */
  predicate Foreign(msg: octets, ic: cookie) { HeaderOf(msg).Ok? ==> HeaderOf(msg).value.ic != ic }

  /** A datagram under another cookie leaves a peer as it is, unless it begins an
      exchange and the peer has to make room; it brings no peer back. */
  lemma OtherCookie(cfg: ServerConfig, s: ServerState, msg: octets, addr: Addr, at: Service, ic: cookie)
    requires Configured(cfg) && ServerOk(cfg, s) && Foreign(msg, ic)
    ensures var s' := Serve(cfg, s, msg, addr, at).0;
            && (ic in s'.peers ==> ic in s.peers && s'.peers[ic] == s.peers[ic])
            && (ic in s.peers && ic !in s'.peers ==> Expired(s.peers, at.now, at.kept) && ic !in at.kept)
  {
    hide ResponderStep, Settle, Configured, ServerOk, HeaderOf, ResponderOk, Negotiated;
    if Possible(s, msg, at) && HeaderOf(msg).Ok? {
      var h := HeaderOf(msg).value;
      if h.ic !in s.peers {
        if h.exchange == XCHG_MAIN && h.rc == NO_COOKIE {
          var r := NewResponder(s.sessions, addr, h.ic, at.draw.rc, at.now);
          NewStepOk(cfg, s, at, h, addr);
          SettleOthers(cfg, s.(peers := at.kept[h.ic := r], sessions := s.sessions + 1), h.ic,
                       ResponderStep(cfg, r, h, msg, s.groups, at.draw), msg, at.draw, ic);
        }
      } else if h.rc == s.peers[h.ic].rc {
        var r := s.peers[h.ic].(touched := at.now);
        ExistingStepOk(cfg, s, h, at.now);
        SettleOthers(cfg, s, h.ic, ResponderStep(cfg, r, h, msg, s.groups, at.draw), msg, at.draw, ic);
      }
    }
  }

  lemma SettleOthers(cfg: ServerConfig, s: ServerState, k: cookie, out: Outcome, msg: octets, draw: Draw, ic: cookie)
    requires k != ic
    ensures var s' := Settle(cfg, s, k, out, msg, draw).0;
            (ic in s'.peers <==> ic in s.peers) && (ic in s.peers ==> s'.peers[ic] == s.peers[ic])
  {
    hide Informational;
  }

  datatype Arrival = Arrival(msg: octets, addr: Addr, at: Service)

  ghost function ServeAll(cfg: ServerConfig, s: ServerState, arrivals: seq<Arrival>): (s': ServerState)
    requires Configured(cfg) && ServerOk(cfg, s)
    ensures ServerOk(cfg, s')
    decreases |arrivals|
  {
    hide Serve, Configured, ServerOk;
    if arrivals == [] then s
    else ServeAll(cfg, Serve(cfg, s, arrivals[0].msg, arrivals[0].addr, arrivals[0].at).0, arrivals[1..])
  }

  /** The same record of a peer and the same groups. */
  predicate SameView(s: ServerState, s': ServerState, ic: cookie)
  {
    ic in s.peers && ic in s'.peers && s'.peers[ic] == s.peers[ic] && s'.groups == s.groups
  }

  /** Any datagrams under other cookies may come in between: a peer that is still
      there, with no group changed, gets the reply to its next request that it
      would have got before them, and its record ends up the same. */
  lemma {:induction false} AmidOthers(
    cfg: ServerConfig, s: ServerState, arrivals: seq<Arrival>, msg: octets, addr: Addr, at: Service, ic: cookie)
    requires Configured(cfg) && ServerOk(cfg, s) && at.draw.rc != NO_COOKIE
    requires forall i :: 0 <= i < |arrivals| ==> Foreign(arrivals[i].msg, ic)
    requires HeaderOf(msg).Ok? && HeaderOf(msg).value.ic == ic
    requires var s' := ServeAll(cfg, s, arrivals); ic in s'.peers && s'.groups == s.groups
    ensures var (t, reply) := Serve(cfg, s, msg, addr, at);
            var (t', reply') := Serve(cfg, ServeAll(cfg, s, arrivals), msg, addr, at);
            && reply' == reply && t'.groups == t.groups && (ic in t'.peers <==> ic in t.peers)
            && (ic in t.peers ==> t'.peers[ic] == t.peers[ic])
  {
    hide Serve, ServeAll, Configured, ServerOk, HeaderOf, Foreign;
    OthersPass(cfg, s, arrivals, ic);
    ViewDecides(cfg, s, ServeAll(cfg, s, arrivals), msg, addr, at, ic);
  }

  lemma {:induction false} OthersPass(cfg: ServerConfig, s: ServerState, arrivals: seq<Arrival>, ic: cookie)
    requires Configured(cfg) && ServerOk(cfg, s) && forall i :: 0 <= i < |arrivals| ==> Foreign(arrivals[i].msg, ic)
    requires ic in ServeAll(cfg, s, arrivals).peers
    ensures ic in s.peers && ServeAll(cfg, s, arrivals).peers[ic] == s.peers[ic]
    decreases |arrivals|
  {
    hide Serve, Configured, ServerOk, HeaderOf, Foreign;
    if arrivals != [] {
      var a := arrivals[0];
      OthersPass(cfg, Serve(cfg, s, a.msg, a.addr, a.at).0, arrivals[1..], ic);
      OtherCookie(cfg, s, a.msg, a.addr, a.at, ic);
    }
  }

  lemma ViewDecides(
    cfg: ServerConfig, s: ServerState, s': ServerState, msg: octets, addr: Addr, at: Service, ic: cookie)
    requires Configured(cfg) && ServerOk(cfg, s) && ServerOk(cfg, s') && SameView(s, s', ic) && at.draw.rc != NO_COOKIE
    requires HeaderOf(msg).Ok? && HeaderOf(msg).value.ic == ic
    ensures var (t, reply) := Serve(cfg, s, msg, addr, at);
            var (t', reply') := Serve(cfg, s', msg, addr, at);
            && reply' == reply && t'.groups == t.groups && (ic in t'.peers <==> ic in t.peers)
            && (ic in t.peers ==> t'.peers[ic] == t.peers[ic])
  {
    hide ResponderStep, Informational, Configured, ServerOk, Expired, HeaderOf;
  }

  // ---- The registration over the link.

  /** What the member hears in `n` attempts when only the last brings a reply. */
  function Windows(n: nat, reply: Option<octets>): (w: seq<seq<octets>>)
    ensures |w| == n
  {
    if n == 0 then []
    else if n == 1 then [if reply.Some? then [reply.value] else []]
    else [[]] + Windows(n - 1, reply)
  }

  lemma {:induction false} HeardLast(c: Crypto, keys: Option<Keys>, ic: cookie, accept: Header -> bool, n: nat, reply: Option<octets>)
    requires n >= 1
    ensures RoundTrip(c, keys, ic, accept, Windows(n, reply)) == RoundTrip(c, keys, ic, accept, Windows(1, reply))
    ensures RoundTrip(c, keys, ic, accept, Windows(1, reply)).Ok? ==>
              && reply.Some? && RoundTrip(c, keys, ic, accept, Windows(1, reply)) == Ok(reply.value)
              && HeaderOf(reply.value).Ok? && !IsInformational(reply.value)
    decreases n
  {
    hide ReadInformational, HeaderOf;
    if n > 1 {
      HeardLast(c, keys, ic, accept, n - 1, reply);
      assert Windows(n, reply)[1..] == Windows(n - 1, reply);
      assert HearAll(c, keys, ic, accept, []) == Ignored;
    } else {
      HeardOnce(c, keys, ic, accept, reply);
    }
  }

  lemma HeardOnce(c: Crypto, keys: Option<Keys>, ic: cookie, accept: Header -> bool, reply: Option<octets>)
    ensures RoundTrip(c, keys, ic, accept, Windows(1, reply)).Ok? ==>
              && reply.Some? && RoundTrip(c, keys, ic, accept, Windows(1, reply)) == Ok(reply.value)
              && HeaderOf(reply.value).Ok? && !IsInformational(reply.value)
  {
    hide ReadInformational, HeaderOf;
    var w := Windows(1, reply);
    assert w[1..] == [];
    assert RoundTrip(c, keys, ic, accept, []) == Err(Timeout);
    assert HearAll(c, keys, ic, accept, []) == Ignored;
    if reply.Some? {
      var only := [reply.value];
      assert w[0] == only && only[1..] == [];
      assert HearAll(c, keys, ic, accept, only) == Hear(c, keys, ic, accept, reply.value);
    }
  }

  /** The member and the server to the end: `rounds[k]` is what becomes of the
      copies of request `k`. */
  ghost function Proceed(
    m: MemberConfig, g: GroupId, d: MemberDraw, scfg: ServerConfig, s: ServerState, addr: Addr, p: Progress,
    req: octets, rounds: seq<seq<Fate>>): (ServerState, Result<Progress, Fault>)
    requires Checked(m) && Configured(scfg) && ServerOk(scfg, s)
    decreases |rounds|
  {
    hide Carry, RoundTrip, Windows, OnReply, Configured, ServerOk, Checked;
    if p.Done? then (s, Ok(p))
    else if rounds == [] then (s, Err(Timeout))
    else
      var (s', reply) := Carry(scfg, s, req, addr, rounds[0]);
      var taken := RoundTrip(m.c, KeysIn(p), d.ic, Accepts(d, p), Windows(|rounds[0]|, reply));
      if taken.Err? then (s', Err(taken.error))
      else
        var next := OnReply(m, g, d, p, taken.value);
        if next.Err? then (s', Err(next.error))
        else Proceed(m, g, d, scfg, s', addr, next.value.0, next.value.1, rounds[1..])
  }

  predicate AllGetThrough(rounds: seq<seq<Fate>>) { forall k :: 0 <= k < |rounds| ==> GetsThrough(rounds[k]) }

  /** Each request gets through at its first arrival. */
  function LossFree(rounds: seq<seq<Fate>>): (r: seq<seq<Fate>>)
    requires AllGetThrough(rounds)
    ensures |r| == |rounds|
    ensures forall k :: 0 <= k < |r| ==> r[k] == [Through(FirstService(rounds[k]))]
  {
    seq(|rounds|, k requires 0 <= k < |rounds| => [Through(FirstService(rounds[k]))])
  }

  /** The same but for the time the peer was last heard. */
  ghost predicate Like(s: ServerState, s': ServerState, ic: cookie)
  {
    s' == s || (ic in s.peers && exists t :: s' == Touch(s, ic, t))
  }

  predicate SentBy(msg: octets, ic: cookie) { HeaderOf(msg).Ok? ==> HeaderOf(msg).value.ic == ic }

  lemma MessageSentBy(h: Header, ps: seq<Payload>)
    ensures SentBy(Message(h, ps), h.ic)
  {
    hide EncodeChain, U32Octets, U32Of;
    assert Message(h, ps)[..8] == h.ic;
  }

  lemma SealedSentBy(c: Crypto, k: Keys, h: Header, ps: seq<Payload>, iv: block)
    ensures SentBy(Sealed(c, k, h, ps, iv).0, h.ic)
  {
    hide EncodeChain, Encrypt, U32Octets, U32Of;
    assert Sealed(c, k, h, ps, iv).0[..8] == h.ic;
  }

  predicate OfMember(d: MemberDraw, p: Progress)
  {
    match p
    case Opening => true
    case Exchanging(x) => x.ic == d.ic
    case Proving(k, _) => k.ic == d.ic
    case Asking(x, _) => x.ic == d.ic
    case Confirming(x, _, _) => x.ic == d.ic
    case Done(x, _) => x.ic == d.ic
  }

  /** Every request carries the member's cookie. */
  lemma NextSentBy(m: MemberConfig, g: GroupId, d: MemberDraw, p: Progress, reply: octets)
    requires Checked(m) && !p.Done? && OfMember(d, p) && OnReply(m, g, d, p, reply).Ok?
    ensures var (p', req) := OnReply(m, g, d, p, reply).value; OfMember(d, p') && (!p'.Done? ==> SentBy(req, d.ic))
  {
    hide Open, Message, Sealed, SentBy, ParsePhase1Sa, Derive, EncodeChain, CheckServer, MemberProof, SaOf, KdOf, Join,
      Hashed, Offered, GroupIdPayload, PullMac, Phase2Iv;
    match p
    case Opening =>
      var x := OnSa(m, d.ic, reply, d.secret, d.ni).value.0;
      MessageSentBy(MainHeader(d.ic, x.rc), [Payload(P_KE, m.c.public(x.suite.group, d.secret)), Payload(P_NONCE, d.ni)]);
    case Exchanging(x) =>
      var k := OnKe(m, x, reply).value.0;
      SealedSentBy(m.c, k.keys, MainHeader(k.ic, k.rc), MemberProof(m, k).value, k.iv);
    case Proving(k, iv) =>
      var x := OnAuth(m, k, iv, reply).value;
      PullSentBy(m, x, g, d);
    case Asking(x, iv) =>
      PolicySentBy(m, x, d, iv, reply);
    case Confirming(_, _, _) =>
  }

  lemma PullSentBy(m: MemberConfig, x: Secured, g: GroupId, d: MemberDraw)
    requires PullRequestMessage(m, x, g, d.mid, d.pullNi).Ok?
    ensures SentBy(PullRequestMessage(m, x, g, d.mid, d.pullNi).value.0, x.ic)
  {
    hide Sealed, SentBy, EncodeChain, GroupIdPayload, PullMac, Phase2Iv;
    var rest := [Payload(P_NONCE, d.pullNi), Payload(P_ID, IdBody(GroupIdPayload(g).value))];
    var hash := PullMac(m.c, x.keys, d.mid, EncodeChain(rest, P_NONE));
    SealedSentBy(m.c, x.keys, PullHeader(x, d.mid), [Payload(P_HASH, hash)] + rest, Phase2Iv(m.c, x.keys, d.mid));
  }

  lemma PolicySentBy(m: MemberConfig, x: Secured, d: MemberDraw, iv: block, reply: octets)
    requires OnPolicy(m, x, d.mid, d.pullNi, iv, reply).Ok?
    ensures SentBy(OnPolicy(m, x, d.mid, d.pullNi, iv, reply).value.1, x.ic)
  {
    hide Open, Sealed, SentBy, EncodeChain, PullMac, SaOf, Hashed;
    var o := Open(m.c, Some(x.keys), reply, iv).value;
    var nr := OnPolicy(m, x, d.mid, d.pullNi, iv, reply).value.0.nr;
    SealedSentBy(m.c, x.keys, PullHeader(x, d.mid), [Payload(P_HASH, PullMac(m.c, x.keys, d.mid, d.pullNi + nr))], o.nextIv);
  }

  lemma CarryOnce(cfg: ServerConfig, s: ServerState, msg: octets, addr: Addr, at: Service)
    requires Configured(cfg) && ServerOk(cfg, s)
    ensures Carry(cfg, s, msg, addr, [Through(at)]) == Serve(cfg, s, msg, addr, at)
  {
    hide Serve, Configured, ServerOk;
  }

  lemma ServeLike(cfg: ServerConfig, s: ServerState, s': ServerState, ic: cookie, msg: octets, addr: Addr, at: Service)
    requires Configured(cfg) && ServerOk(cfg, s) && ServerOk(cfg, s') && Like(s, s', ic) && SentBy(msg, ic)
    requires Serve(cfg, s, msg, addr, at).1.Some?
    ensures HeaderOf(msg).Ok? && Serve(cfg, s', msg, addr, at) == Serve(cfg, s, msg, addr, at)
  {
    hide Configured, ServerOk, ResponderStep, Settle, Expired;
    if s' != s {
      var t :| s' == Touch(s, ic, t);
      TouchIrrelevant(cfg, s, ic, t, msg, addr, at);
    }
  }

  /** A registration in which any messages are lost, but each request gets
      through in the end, ends as the one without loss does: with the same keys
      and the same TEKs, and with the server in the same state but for the time
      it last heard the member. */
  lemma {:induction false} LossyRegistration(
    m: MemberConfig, g: GroupId, d: MemberDraw, scfg: ServerConfig, s: ServerState, s': ServerState, addr: Addr,
    p: Progress, req: octets, rounds: seq<seq<Fate>>)
    requires Checked(m) && Configured(scfg) && ServerOk(scfg, s) && ServerOk(scfg, s')
    requires AllGetThrough(rounds) && Like(s, s', d.ic) && OfMember(d, p) && SentBy(req, d.ic)
    requires Proceed(m, g, d, scfg, s, addr, p, req, LossFree(rounds)).1.Ok?
    ensures var calm := Proceed(m, g, d, scfg, s, addr, p, req, LossFree(rounds));
            var lossy := Proceed(m, g, d, scfg, s', addr, p, req, rounds);
            lossy.1 == calm.1 && Like(calm.0, lossy.0, d.ic)
    decreases |rounds|
  {
    hide Carry, Serve, RoundTrip, OnReply, Configured, ServerOk, Checked, Accepts, SentBy, Like, OfMember,
      Windows, FirstService;
    if !p.Done? {
      var at := FirstService(rounds[0]);
      CarryOnce(scfg, s, req, addr, at);
      var (s1, reply) := Serve(scfg, s, req, addr, at);
      HeardLast(m.c, KeysIn(p), d.ic, Accepts(d, p), 1, reply);
      HeardLast(m.c, KeysIn(p), d.ic, Accepts(d, p), |rounds[0]|, reply);
      ServeLike(scfg, s, s', d.ic, req, addr, at);
      LossyCarry(scfg, s', req, addr, rounds[0]);
      var (s2, _) := Carry(scfg, s', req, addr, rounds[0]);
      LikeAfter(scfg, s1, s2, req, addr, reply.value, d.ic);
      NextSentBy(m, g, d, p, reply.value);
      var next := OnReply(m, g, d, p, reply.value).value;
      assert LossFree(rounds)[1..] == LossFree(rounds[1..]);
      if next.0.Done? {
        LikeDone(m, g, d, scfg, s1, s2, addr, next.0, next.1, rounds[1..]);
      } else {
        LossyRegistration(m, g, d, scfg, s1, s2, addr, next.0, next.1, rounds[1..]);
      }
    }
  }

  lemma LikeAfter(cfg: ServerConfig, s: ServerState, s': ServerState, msg: octets, addr: Addr, reply: octets, ic: cookie)
    requires Remembers(s, msg, addr, reply) && SentBy(msg, ic)
    requires exists t :: s' == Touch(s, HeaderOf(msg).value.ic, t)
    ensures Like(s, s', ic)
  {
    hide HeaderOf;
  }

  lemma LikeDone(
    m: MemberConfig, g: GroupId, d: MemberDraw, scfg: ServerConfig, s: ServerState, s': ServerState, addr: Addr,
    p: Progress, req: octets, rounds: seq<seq<Fate>>)
    requires Checked(m) && Configured(scfg) && ServerOk(scfg, s) && ServerOk(scfg, s') && AllGetThrough(rounds) && p.Done?
    ensures Proceed(m, g, d, scfg, s, addr, p, req, LossFree(rounds)) == (s, Ok(p))
    ensures Proceed(m, g, d, scfg, s', addr, p, req, rounds) == (s', Ok(p))
  {
    hide Configured, ServerOk, Checked, GetsThrough;
  }
}
