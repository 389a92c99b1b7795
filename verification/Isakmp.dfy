/** The ISAKMP message and payload codec (src/gdoi/isakmp.rs; RFC 2408). */
module Isakmp {
  import opened Octets

  const P_NONE: byte := 0
  const P_SA: byte := 1
  const P_PROPOSAL: byte := 2
  const P_TRANS: byte := 3
  const P_KE: byte := 4
  const P_ID: byte := 5
  const P_CERT: byte := 6
  const P_HASH: byte := 8
  const P_SIG: byte := 9
  const P_NONCE: byte := 10
  const P_NOTIFY: byte := 11
  const P_SAT: byte := 16
  const P_KD: byte := 17

  const XCHG_MAIN: byte := 2
  const XCHG_INFO: byte := 5
  const XCHG_PULL: byte := 32

  const ISAKMP_VERSION: byte := 0x10
  const HEADER_LEN: nat := 28
  const DOI_GDOI: u32 := 2
  const SIT_IDENTITY: u32 := 1
  const PROTO_ISAKMP: byte := 1
  const TRANS_KEY_IKE: byte := 1
  const MAX_MESSAGE: nat := 65535
  const MAX_PAYLOADS: nat := 64

  const NOTIFY_NO_PROPOSAL_CHOSEN: u16 := 14
  const NOTIFY_INVALID_ID_INFO: u16 := 18
  const NOTIFY_INVALID_CERT: u16 := 19
  const NOTIFY_INVALID_HASH_INFO: u16 := 23
  const NOTIFY_AUTH_FAILED: u16 := 24
  const NOTIFY_INVALID_SIGNATURE: u16 := 25

  datatype Fault =
    | Malformed
    | Config
    | Auth
    | Policy
    | Refused(notify: u16)
    | Notified(notify: u16)
    | Timeout

  // ---- The header.

  type cookie = s: octets | |s| == 8 witness [0, 0, 0, 0, 0, 0, 0, 0]

  const NO_COOKIE: cookie := [0, 0, 0, 0, 0, 0, 0, 0]

  datatype Header = Header(
    ic: cookie, rc: cookie, next: byte, exchange: byte, flags: byte, msgId: u32, length: u32)

  predicate Encrypted(h: Header) { h.flags % 2 == 1 }

  function HeaderOctets(h: Header): (b: octets)
    ensures |b| == HEADER_LEN
  {
    h.ic + h.rc + [h.next, ISAKMP_VERSION, h.exchange, h.flags] + U32Octets(h.msgId) + U32Octets(h.length)
  }

  function HeaderOf(b: octets): (r: Result<Header, Fault>)
    ensures r.Ok? ==> HEADER_LEN <= r.value.length <= |b| && r.value.length <= MAX_MESSAGE
  {
    if |b| < HEADER_LEN || b[17] / 16 != 1 then Err(Malformed)
    else
      var length := U32Of(b[24], b[25], b[26], b[27]);
      if length < HEADER_LEN || length > |b| || length > MAX_MESSAGE then Err(Malformed)
      else Ok(Header(b[..8], b[8..16], b[16], b[18], b[19], U32Of(b[20], b[21], b[22], b[23]), length))
  }

  /** A header reads back exactly when the length it states is there. */
  lemma HeaderRoundTrip(h: Header, body: octets)
    ensures HeaderOf(HeaderOctets(h) + body) == Ok(h) <==>
              HEADER_LEN <= h.length <= HEADER_LEN + |body| && h.length <= MAX_MESSAGE
    ensures (HeaderOctets(h) + body)[HEADER_LEN..] == body
  {
    hide U32Octets, U32Of;
    U32RoundTrip(h.msgId);
    U32RoundTrip(h.length);
    var b := HeaderOctets(h) + body;
    assert b[..8] == h.ic && b[8..16] == h.rc;
    assert b[16..20] == [h.next, ISAKMP_VERSION, h.exchange, h.flags];
    assert b[16] == b[16..20][0] && b[17] == b[16..20][1] && b[18] == b[16..20][2] && b[19] == b[16..20][3];
    assert b[20..24] == U32Octets(h.msgId) && b[24..28] == U32Octets(h.length);
    Four(b, 20);
    Four(b, 24);
  }

  lemma Four(b: octets, at: nat)
    requires at + 4 <= |b|
    ensures var s := b[at..at + 4];
            b[at] == s[0] && b[at + 1] == s[1] && b[at + 2] == s[2] && b[at + 3] == s[3]
  {
  }

  // ---- Payload chains.

  datatype Payload = Payload(kind: byte, body: octets)

  /** The length of a payload on the wire. */
  function RawLength(p: Payload): nat { 4 + |p.body| }

  function EncodeChain(ps: seq<Payload>, next: byte): octets
  {
    if ps == [] then []
    else PayloadOctets(ps[0], if |ps| > 1 then ps[1].kind else next) + EncodeChain(ps[1..], next)
  }

  /** A payload behind its generic header, which names the next payload. */
  function PayloadOctets(p: Payload, next: byte): (b: octets)
    ensures |b| == RawLength(p)
  {
    [next, 0] + U16Octets(RawLength(p) % 0x1_0000) + p.body
  }

  method AppendChain(ps: seq<Payload>, next: byte) returns (b: octets)
    ensures b == EncodeChain(ps, next)
  {
    b := [];
    assert ps[0..] == ps;
    for i := 0 to |ps|
      invariant EncodeChain(ps, next) == b + EncodeChain(ps[i..], next)
    {
      var n := if i + 1 < |ps| then ps[i + 1].kind else next;
      assert ps[i..][1..] == ps[i + 1..];
      var was := b;
      b := b + [n, 0];
      b := b + U16Octets((4 + |ps[i].body|) % 0x1_0000);
      b := b + ps[i].body;
      assert b == was + PayloadOctets(ps[i], n);
      Joined(was, PayloadOctets(ps[i], n), EncodeChain(ps[i + 1..], next));
    }
    assert b + [] == b;
  }

  /** The payloads of a chain, and the octets they take; `count` have been
      read before it. */
  function ChainOf(b: octets, first: byte, count: nat): (r: Result<(seq<Payload>, nat), Fault>)
    ensures r.Ok? ==> r.value.1 <= |b|
    decreases |b|
  {
    if first == P_NONE then Ok(([], 0))
    else if |b| < 4 then Err(Malformed)
    else
      var n: nat := U16Of(b[2], b[3]);
      if n < 4 || n > |b| then Err(Malformed)
      else if count + 1 > MAX_PAYLOADS then Err(Malformed)
      else
        match ChainOf(b[n..], b[0], count + 1)
        case Err(f) => Err(f)
        case Ok((ps, used)) => Ok(([Payload(first, b[4..n])] + ps, n + used))
  }

  function ParseChain(b: octets, first: byte): (r: Result<(seq<Payload>, nat), Fault>)
    ensures r.Ok? ==> r.value.1 <= |b|
  {
    ChainOf(b, first, 0)
  }

  ghost function After(ps: seq<Payload>, off: nat, r: Result<(seq<Payload>, nat), Fault>): Result<(seq<Payload>, nat), Fault>
  {
    match r
    case Err(f) => Err(f)
    case Ok((more, used)) => Ok((ps + more, off + used))
  }

  method ReadChain(b: octets, first: byte) returns (r: Result<(seq<Payload>, nat), Fault>)
    ensures r == ParseChain(b, first)
  {
    hide ChainOf, After;
    var ps: seq<Payload> := [];
    var off, t := 0, first;
    ReadStarts(b, first);
    while t != P_NONE
      invariant off <= |b|
      invariant ParseChain(b, first) == After(ps, off, ChainOf(b[off..], t, |ps|))
      decreases |b| - off
    {
      ReadStops(b, off, t, ps);
      if |b| - off < 4 {
        return Err(Malformed);
      }
      var next := b[off];
      var n := U16Of(b[off + 2], b[off + 3]);
      if n < 4 || n > |b| - off {
        return Err(Malformed);
      }
      ReadStep(b, off, t, ps, n);
      ps := ps + [Payload(t, b[off + 4..off + n])];
      off := off + n;
      t := next;
      if |ps| > MAX_PAYLOADS {
        return Err(Malformed);
      }
    }
    ReadStops(b, off, t, ps);
    return Ok((ps, off));
  }

  lemma ReadStarts(b: octets, first: byte)
    ensures ParseChain(b, first) == After([], 0, ChainOf(b[0..], first, 0))
  {
    hide ChainOf;
    assert b[0..] == b;
    if ParseChain(b, first).Ok? {
      assert [] + ParseChain(b, first).value.0 == ParseChain(b, first).value.0;
    }
  }

  lemma ReadStops(b: octets, off: nat, t: byte, ps: seq<Payload>)
    requires off <= |b|
    ensures var r := After(ps, off, ChainOf(b[off..], t, |ps|));
            && (t == P_NONE ==> r == Ok((ps, off)))
            && (t != P_NONE && |b| - off < 4 ==> r == Err(Malformed))
            && (t != P_NONE && |b| - off >= 4 && !(4 <= U16Of(b[off + 2], b[off + 3]) <= |b| - off) ==>
                  r == Err(Malformed))
  {
    assert ps + [] == ps;
  }

  lemma ReadStep(b: octets, off: nat, t: byte, ps: seq<Payload>, n: nat)
    requires off <= |b| && |b| - off >= 4 && t != P_NONE
    requires n == U16Of(b[off + 2], b[off + 3]) && 4 <= n <= |b| - off
    ensures After(ps, off, ChainOf(b[off..], t, |ps|)) ==
            if |ps| + 1 > MAX_PAYLOADS then Err(Malformed)
            else After(ps + [Payload(t, b[off + 4..off + n])], off + n, ChainOf(b[off + n..], b[off], |ps| + 1))
  {
    var c := b[off..];
    assert c[n..] == b[off + n..] && c[4..n] == b[off + 4..off + n];
    var rest := ChainOf(b[off + n..], b[off], |ps| + 1);
    if rest.Ok? {
      var p := Payload(t, b[off + 4..off + n]);
      assert ps + ([p] + rest.value.0) == ps + [p] + rest.value.0;
    }
  }

  /** Payloads that the generic header can carry. */
  predicate Encodable(ps: seq<Payload>)
  {
    forall i :: 0 <= i < |ps| ==> ps[i].kind != P_NONE && RawLength(ps[i]) < 0x1_0000
  }

  function FirstKind(ps: seq<Payload>): byte { if ps == [] then P_NONE else ps[0].kind }

  lemma PayloadSplits(p: Payload, next: byte, rest: octets)
    requires RawLength(p) < 0x1_0000
    ensures var b := PayloadOctets(p, next) + rest;
            && b[0] == next && U16Of(b[2], b[3]) == RawLength(p)
            && b[4..RawLength(p)] == p.body && b[RawLength(p)..] == rest
  {
    hide U16Octets;
    var b := PayloadOctets(p, next) + rest;
    U16RoundTrip(RawLength(p));
    assert b[2..4] == U16Octets(RawLength(p));
    assert b[2] == b[2..4][0] && b[3] == b[2..4][1];
  }

  lemma {:induction false} ChainReads(ps: seq<Payload>, padding: octets, count: nat)
    requires Encodable(ps)
    ensures ChainOf(EncodeChain(ps, P_NONE) + padding, FirstKind(ps), count) ==
            if ps != [] && count + |ps| > MAX_PAYLOADS then Err(Malformed)
            else Ok((ps, |EncodeChain(ps, P_NONE)|))
    decreases ps
  {
    hide ChainOf, PayloadOctets;
    if ps == [] {
      assert [] + padding == padding;
      EmptyChain(padding, count);
    } else {
      var p, rest := ps[0], EncodeChain(ps[1..], P_NONE);
      var next := FirstKind(ps[1..]);
      ChainReads(ps[1..], padding, count + 1);
      Joined(PayloadOctets(p, next), rest, padding);
      PayloadSplits(p, next, rest + padding);
      assert [p] + ps[1..] == ps;
      ChainStep(PayloadOctets(p, next) + (rest + padding), p.kind, count);
    }
  }

  lemma EmptyChain(b: octets, count: nat)
    ensures ChainOf(b, P_NONE, count) == Ok(([], 0))
  {
  }

  lemma ChainStep(b: octets, first: byte, count: nat)
    requires first != P_NONE && |b| >= 4 && 4 <= U16Of(b[2], b[3]) <= |b|
    ensures var n := U16Of(b[2], b[3]);
            ChainOf(b, first, count) ==
            if count + 1 > MAX_PAYLOADS then Err(Malformed)
            else
              match ChainOf(b[n..], b[0], count + 1)
              case Err(f) => Err(f)
              case Ok((ps, used)) => Ok(([Payload(first, b[4..n])] + ps, n + used))
  {
  }

  /** A chain of encodable payloads reads back, padding aside, exactly when
      there are at most 64. */
  lemma ChainRoundTrip(ps: seq<Payload>, padding: octets)
    requires Encodable(ps)
    ensures ParseChain(EncodeChain(ps, P_NONE) + padding, FirstKind(ps)) ==
            if |ps| <= MAX_PAYLOADS then Ok((ps, |EncodeChain(ps, P_NONE)|)) else Err(Malformed)
  {
    ChainReads(ps, padding, 0);
  }

  /** The octets after the first payload are the chain of the others. */
  lemma ChainTail(ps: seq<Payload>, next: byte)
    requires ps != []
    ensures RawLength(ps[0]) <= |EncodeChain(ps, next)|
    ensures EncodeChain(ps, next)[RawLength(ps[0])..] == EncodeChain(ps[1..], next)
  {
  }

  lemma {:induction false} ChainLength(ps: seq<Payload>, qs: seq<Payload>, next: byte)
    ensures |EncodeChain(ps + qs, next)| == |EncodeChain(ps, next)| + |EncodeChain(qs, next)|
    decreases ps
  {
    if ps == [] {
      assert ps + qs == qs;
    } else {
      ChainLength(ps[1..], qs, next);
      assert (ps + qs)[1..] == ps[1..] + qs && (ps + qs)[0] == ps[0];
    }
  }

  /** The first payload of a kind. */
  function Find(ps: seq<Payload>, kind: byte): (r: Option<Payload>)
    ensures r.Some? ==> r.value in ps && r.value.kind == kind
    ensures r.None? ==> forall p :: p in ps ==> p.kind != kind
  {
    if ps == [] then None else if ps[0].kind == kind then Some(ps[0]) else Find(ps[1..], kind)
  }

  // ---- Attributes.

  datatype Attribute = Attribute(kind: u16, value: octets, basic: bool)

  function Basic(kind: u16, v: u16): Attribute { Attribute(kind, U16Octets(v), true) }

  function Variable(kind: u16, v: octets): Attribute { Attribute(kind, v, false) }

  /** A basic attribute has two octets to send: its last ones. */
  predicate WellMade(a: Attribute) { a.basic ==> |a.value| >= 2 }

  predicate AllWellMade(attrs: seq<Attribute>) { forall i :: 0 <= i < |attrs| ==> WellMade(attrs[i]) }

  function AttrOctets(a: Attribute): octets
    requires WellMade(a)
  {
    if a.basic then U16Octets(0x8000 + a.kind % 0x8000) + a.value[|a.value| - 2..]
    else U16Octets(a.kind % 0x8000) + U16Octets(|a.value| % 0x1_0000) + a.value
  }

  function EncodeAttrs(attrs: seq<Attribute>): octets
    requires AllWellMade(attrs)
  {
    if attrs == [] then [] else AttrOctets(attrs[0]) + EncodeAttrs(attrs[1..])
  }

  /** The first attribute of some octets, and the octets it takes. */
  function AttrOf(b: octets): (r: Result<(Attribute, nat), Fault>)
    ensures r.Ok? ==> WellMade(r.value.0) && 4 <= r.value.1 <= |b|
  {
    if |b| < 4 then Err(Malformed)
    else
      var t: int := U16Of(b[0], b[1]);
      if t >= 0x8000 then Ok((Attribute(t - 0x8000, b[2..4], true), 4))
      else
        var n: nat := U16Of(b[2], b[3]);
        if n > |b| - 4 then Err(Malformed) else Ok((Variable(t, b[4..4 + n]), 4 + n))
  }

  function ParseAttrs(b: octets): (r: Result<seq<Attribute>, Fault>)
    ensures r.Ok? ==> AllWellMade(r.value)
    decreases |b|
  {
    if b == [] then Ok([])
    else
      match AttrOf(b)
      case Err(f) => Err(f)
      case Ok((a, n)) =>
        match ParseAttrs(b[n..])
        case Err(f) => Err(f)
        case Ok(rest) => Ok([a] + rest)
  }

  method AppendAttr(a: Attribute, dst: octets) returns (b: octets)
    requires WellMade(a)
    ensures b == dst + AttrOctets(a)
  {
    hide U16Octets, AttrOctets;
    BuiltAttr(a, dst);
    if a.basic {
      b := dst + U16Octets(0x8000 + a.kind % 0x8000);
      b := b + a.value[|a.value| - 2..];
    } else {
      b := dst + U16Octets(a.kind % 0x8000);
      b := b + U16Octets(|a.value| % 0x1_0000);
      b := b + a.value;
    }
  }

  method AppendAttrs(attrs: seq<Attribute>) returns (b: octets)
    requires AllWellMade(attrs)
    ensures b == EncodeAttrs(attrs)
  {
    hide AttrOctets, EncodeAttrs;
    b := [];
    EncodeEnds(attrs);
    for i := 0 to |attrs|
      invariant EncodeAttrs(attrs) == b + EncodeAttrs(attrs[i..])
    {
      EncodeStep(attrs, i, b);
      b := AppendAttr(attrs[i], b);
    }
    assert b + [] == b;
  }

  lemma EncodeEnds(attrs: seq<Attribute>)
    requires AllWellMade(attrs)
    ensures EncodeAttrs(attrs) == [] + EncodeAttrs(attrs[0..]) && EncodeAttrs(attrs[|attrs|..]) == []
  {
    assert attrs[0..] == attrs && attrs[|attrs|..] == [];
  }

  lemma EncodeStep(attrs: seq<Attribute>, i: nat, b: octets)
    requires AllWellMade(attrs) && i < |attrs|
    ensures b + EncodeAttrs(attrs[i..]) == b + AttrOctets(attrs[i]) + EncodeAttrs(attrs[i + 1..])
  {
    hide AttrOctets;
    assert attrs[i..][1..] == attrs[i + 1..];
    Joined(b, AttrOctets(attrs[i]), EncodeAttrs(attrs[i + 1..]));
  }

  lemma BuiltAttr(a: Attribute, b: octets)
    requires WellMade(a)
    ensures b + AttrOctets(a) ==
            if a.basic then b + U16Octets(0x8000 + a.kind % 0x8000) + a.value[|a.value| - 2..]
            else b + U16Octets(a.kind % 0x8000) + U16Octets(|a.value| % 0x1_0000) + a.value
  {
    hide U16Octets;
    if a.basic {
      Joined(b, U16Octets(0x8000 + a.kind % 0x8000), a.value[|a.value| - 2..]);
    } else {
      Assoc(b, U16Octets(a.kind % 0x8000), U16Octets(|a.value| % 0x1_0000), a.value);
    }
  }

  ghost function Onto(attrs: seq<Attribute>, r: Result<seq<Attribute>, Fault>): Result<seq<Attribute>, Fault>
  {
    match r
    case Err(f) => Err(f)
    case Ok(more) => Ok(attrs + more)
  }

  method ReadAttrs(b: octets) returns (r: Result<seq<Attribute>, Fault>)
    ensures r == ParseAttrs(b)
  {
    hide ParseAttrs, AttrOf, Onto;
    var out: seq<Attribute> := [];
    var off := 0;
    AttrsStart(b);
    while off < |b|
      invariant off <= |b|
      invariant ParseAttrs(b) == Onto(out, ParseAttrs(b[off..]))
    {
      AttrStep(b, off, out);
      AttrHere(b, off);
      if |b| - off < 4 {
        return Err(Malformed);
      }
      var t: int := U16Of(b[off], b[off + 1]);
      if t >= 0x8000 {
        out := out + [Attribute(t - 0x8000, b[off + 2..off + 4], true)];
        off := off + 4;
      } else {
        var n := U16Of(b[off + 2], b[off + 3]);
        if n > |b| - off - 4 {
          return Err(Malformed);
        }
        out := out + [Variable(t, b[off + 4..off + 4 + n])];
        off := off + 4 + n;
      }
    }
    AttrsEnd(b, out);
    return Ok(out);
  }

  lemma AttrsStart(b: octets)
    ensures ParseAttrs(b) == Onto([], ParseAttrs(b[0..]))
  {
    assert b[0..] == b;
    if ParseAttrs(b).Ok? { assert [] + ParseAttrs(b).value == ParseAttrs(b).value; }
  }

  lemma AttrsEnd(b: octets, out: seq<Attribute>)
    ensures Onto(out, ParseAttrs(b[|b|..])) == Ok(out)
  {
    assert out + [] == out;
  }

  lemma AttrHere(b: octets, off: nat)
    requires off <= |b|
    ensures AttrOf(b[off..]) ==
            if |b| - off < 4 then Err(Malformed)
            else
              var t: int := U16Of(b[off], b[off + 1]);
              if t >= 0x8000 then Ok((Attribute(t - 0x8000, b[off + 2..off + 4], true), 4))
              else
                var n: nat := U16Of(b[off + 2], b[off + 3]);
                if n > |b| - off - 4 then Err(Malformed) else Ok((Variable(t, b[off + 4..off + 4 + n]), 4 + n))
  {
    hide U16Of;
    var c := b[off..];
    if |c| >= 4 {
      assert c[0] == b[off] && c[1] == b[off + 1] && c[2] == b[off + 2] && c[3] == b[off + 3];
      assert c[2..4] == b[off + 2..off + 4];
      var n: nat := U16Of(b[off + 2], b[off + 3]);
      if n <= |c| - 4 { assert c[4..4 + n] == b[off + 4..off + 4 + n]; }
    }
  }

  lemma AttrStep(b: octets, off: nat, out: seq<Attribute>)
    requires off < |b|
    ensures Onto(out, ParseAttrs(b[off..])) ==
            match AttrOf(b[off..])
            case Err(f) => Err(f)
            case Ok((a, n)) => Onto(out + [a], ParseAttrs(b[off + n..]))
  {
    hide AttrOf;
    var c := b[off..];
    if AttrOf(c).Ok? {
      var (a, n) := AttrOf(c).value;
      assert c[n..] == b[off + n..];
      var rest := ParseAttrs(b[off + n..]);
      if rest.Ok? { assert out + ([a] + rest.value) == out + [a] + rest.value; }
    }
  }

  predicate EncodableAttrs(attrs: seq<Attribute>)
  {
    && AllWellMade(attrs)
    && forall i :: 0 <= i < |attrs| ==>
         attrs[i].kind < 0x8000 && |attrs[i].value| < 0x1_0000 && (attrs[i].basic ==> |attrs[i].value| == 2)
  }

  lemma U16Reads(v: u16, rest: octets)
    ensures var b := U16Octets(v) + rest; U16Of(b[0], b[1]) == v && b[2..] == rest
  {
    hide U16Octets;
    U16RoundTrip(v);
  }

  lemma BasicReads(a: Attribute, rest: octets)
    requires a.basic && |a.value| == 2 && a.kind < 0x8000
    ensures AttrOf(AttrOctets(a) + rest) == Ok((a, |AttrOctets(a)|))
  {
    hide U16Octets;
    var b := AttrOctets(a) + rest;
    U16Reads(0x8000 + a.kind, a.value + rest);
    Joined(U16Octets(0x8000 + a.kind), a.value, rest);
    assert a.value[0..] == a.value;
    assert b[2..] == a.value + rest;
    assert b[2..4] == a.value;
    assert a == Attribute(a.kind, a.value, true);
  }

  lemma VariableReads(a: Attribute, rest: octets)
    requires !a.basic && a.kind < 0x8000 && |a.value| < 0x1_0000
    ensures AttrOf(AttrOctets(a) + rest) == Ok((a, |AttrOctets(a)|))
  {
    hide U16Octets;
    var b := AttrOctets(a) + rest;
    var kind, length := U16Octets(a.kind), U16Octets(|a.value|);
    assert b == kind + (length + (a.value + rest));
    U16Reads(a.kind, length + (a.value + rest));
    U16Reads(|a.value|, a.value + rest);
    var c := b[2..];
    assert c == length + (a.value + rest) && b[2] == c[0] && b[3] == c[1];
    assert c[2..] == a.value + rest;
    assert b[4..4 + |a.value|] == a.value;
    assert a == Variable(a.kind, a.value);
  }

  lemma {:induction false} AttrsRoundTrip(attrs: seq<Attribute>)
    requires EncodableAttrs(attrs)
    ensures ParseAttrs(EncodeAttrs(attrs)) == Ok(attrs)
  {
    hide AttrOctets, AttrOf;
    if attrs != [] {
      var rest := EncodeAttrs(attrs[1..]);
      AttrsRoundTrip(attrs[1..]);
      if attrs[0].basic { BasicReads(attrs[0], rest); } else { VariableReads(attrs[0], rest); }
      assert (AttrOctets(attrs[0]) + rest)[|AttrOctets(attrs[0])|..] == rest;
      assert [attrs[0]] + attrs[1..] == attrs;
    }
  }

  function AttrByType(attrs: seq<Attribute>, t: u16): Option<Attribute>
  {
    if attrs == [] then None else if attrs[0].kind == t then Some(attrs[0]) else AttrByType(attrs[1..], t)
  }

  // ---- Identification.

  datatype IdPayload = IdPayload(kind: byte, data: octets)

  function IdBody(id: IdPayload): octets { [id.kind, 0, 0, 0] + id.data }

  function IdOf(b: octets): Result<IdPayload, Fault>
  {
    if |b| < 4 then Err(Malformed) else Ok(IdPayload(b[0], b[4..]))
  }

  lemma IdRoundTrip(id: IdPayload)
    ensures IdOf(IdBody(id)) == Ok(id)
  {
    assert IdBody(id)[4..] == id.data;
  }

  // ---- Notification.

  function NotifyBody(kind: u16): octets { U32Octets(DOI_GDOI) + [PROTO_ISAKMP, 0] + U16Octets(kind) }

  function NotifyOf(b: octets): Result<u16, Fault>
  {
    if |b| < 8 then Err(Malformed) else Ok(U16Of(b[6], b[7]))
  }

  lemma NotifyRoundTrip(kind: u16)
    ensures NotifyOf(NotifyBody(kind)) == Ok(kind)
  {
    hide U16Octets, U32Octets;
    var b := NotifyBody(kind);
    U16RoundTrip(kind);
    assert b[6..8] == U16Octets(kind);
    assert b[6] == b[6..8][0] && b[7] == b[6..8][1];
  }
}
