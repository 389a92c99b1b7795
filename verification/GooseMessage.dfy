/** The GOOSE APDU (src/goose/message.rs). */
module GooseMessage {
  import opened Octets
  import opened Ber
  import opened Decoding
  import opened Elements
  import opened Primitives
  import opened ValueCodec

  const HEADER_LEN: nat := 8

  const PDU_TAG := ApplicationConstructed(1)

  /** `utc` is the message time with its quality, as the 8 octets it travels in. */
  datatype Message = Message(
    goCbRef: octets, datSet: octets, goId: octets, tatl: u32, utc: octets, stNum: u32, sqNum: u32,
    confRev: u32, test: bool, ndsCom: bool, entries: u32, values: seq<Value>, appId: u16)

  // ---- Encoding.

  function Fields(m: Message): (es: seq<Element>)
    ensures |es| == 12
    ensures forall i :: 0 <= i < 12 ==> !es[i].Verbatim?
  {
    [ Primitive(ContextPrimitive(0), m.goCbRef),
      UintElem(ContextPrimitive(1), m.tatl),
      Primitive(ContextPrimitive(2), m.datSet),
      Primitive(ContextPrimitive(3), m.goId),
      Primitive(ContextPrimitive(4), m.utc),
      UintElem(ContextPrimitive(5), m.stNum),
      UintElem(ContextPrimitive(6), m.sqNum),
      BoolElem(ContextPrimitive(7), m.test),
      UintElem(ContextPrimitive(8), m.confRev),
      BoolElem(ContextPrimitive(9), m.ndsCom),
      UintElem(ContextPrimitive(10), m.entries),
      Cons(ContextConstructed(11), DataElements(m.values)) ]
  }

  function Pdu(m: Message): Element { Cons(PDU_TAG, Fields(m)) }

  function Marshal(m: Message): (apdu: octets)
    ensures |apdu| >= HEADER_LEN
  {
    var length := HEADER_LEN + Size(Pdu(m));
    U16Octets(m.appId) + U16Octets(length % 0x1_0000) + [0, 0, 0, 0] + Encode(Pdu(m))
  }

  method MarshalMessage(m: Message) returns (buf: octets)
    ensures buf == Marshal(m)
  {
    hide Fields, Encode, Size;
    var pdu := Pdu(m);
    var length := HEADER_LEN + Size(pdu);
    buf := U16Octets(m.appId);
    buf := buf + U16Octets(length % 0x1_0000);
    buf := buf + [0, 0, 0, 0];
    buf := AppendElement(pdu, buf);
  }

  // ---- Decoding.

  function StringField(c: octets, off: nat, n: u32): (r: Result<(octets, nat), Fault>)
    requires off <= |c|
    ensures r.Ok? ==> off <= r.value.1 <= |c|
  {
    match ExpectAt(c, off, ContextPrimitive(n))
    case Bad(e) => Err(Asn1(e))
    case Got(s, next) => Ok((s, next))
  }

  function Uint32Field(c: octets, off: nat, n: u32): (r: Result<(u32, nat), Fault>)
    requires off <= |c|
    ensures r.Ok? ==> off <= r.value.1 <= |c|
  {
    match ExpectAt(c, off, ContextPrimitive(n))
    case Bad(e) => Err(Asn1(e))
    case Got(s, next) =>
      match UintOf(s)
      case Err(e) => Err(Asn1(e))
      case Ok(v) => if v > U32_MAX then Err(Protocol) else Ok((v, next))
  }

  function FlagField(c: octets, off: nat, n: u32): (r: Result<(bool, nat), Fault>)
    requires off <= |c|
    ensures r.Ok? ==> off <= r.value.1 <= |c|
  {
    match OptionalAt(c, off, ContextPrimitive(n))
    case Bad(e) => Err(Asn1(e))
    case Got(None, next) => Ok((false, next))
    case Got(Some(b), next) =>
      match BoolOf(b)
      case Err(e) => Err(Asn1(e))
      case Ok(v) => Ok((v, next))
  }

  datatype Identity = Identity(goCbRef: octets, tatl: u32, datSet: octets, goId: octets, utc: octets)

  /** gocbRef, timeAllowedToLive, datSet, goID if present, t. */
  function IdentityFrom(c: octets, off: nat): (r: Result<(Identity, nat), Fault>)
    requires off <= |c|
    ensures r.Ok? ==> off <= r.value.1 <= |c|
  {
    match StringField(c, off, 0)
    case Err(f) => Err(f)
    case Ok((ref, p1)) =>
      match Uint32Field(c, p1, 1)
      case Err(f) => Err(f)
      case Ok((tatl, p2)) =>
        match StringField(c, p2, 2)
        case Err(f) => Err(f)
        case Ok((dat, p3)) =>
          match OptionalAt(c, p3, ContextPrimitive(3))
          case Bad(e) => Err(Asn1(e))
          case Got(id, p4) =>
            match StringField(c, p4, 4)
            case Err(f) => Err(f)
            case Ok((utc, p5)) =>
              if |utc| != 8 then Err(Protocol)
              else Ok((Identity(ref, tatl, dat, if id.Some? then id.value else [], utc), p5))
  }

  datatype Counters = Counters(stNum: u32, sqNum: u32, test: bool, confRev: u32, ndsCom: bool, entries: u32)

  /** stNum, sqNum, test, confRev, ndsCom, numDatSetEntries. */
  function CountersFrom(c: octets, off: nat): (r: Result<(Counters, nat), Fault>)
    requires off <= |c|
    ensures r.Ok? ==> off <= r.value.1 <= |c|
  {
    match Uint32Field(c, off, 5)
    case Err(f) => Err(f)
    case Ok((st, p6)) =>
      match Uint32Field(c, p6, 6)
      case Err(f) => Err(f)
      case Ok((sq, p7)) =>
        match FlagField(c, p7, 7)
        case Err(f) => Err(f)
        case Ok((test, p8)) =>
          match Uint32Field(c, p8, 8)
          case Err(f) => Err(f)
          case Ok((conf, p9)) =>
            match FlagField(c, p9, 9)
            case Err(f) => Err(f)
            case Ok((nds, p10)) =>
              match Uint32Field(c, p10, 10)
              case Err(f) => Err(f)
              case Ok((n, p11)) => Ok((Counters(st, sq, test, conf, nds, n), p11))
  }

  function PduFrom(c: octets, appId: u16): Result<Message, Fault>
  {
    match IdentityFrom(c, 0)
    case Err(f) => Err(f)
    case Ok((id, p5)) =>
      match CountersFrom(c, p5)
      case Err(f) => Err(f)
      case Ok((n, p11)) =>
        match ExpectAt(c, p11, ContextConstructed(11))
        case Bad(e) => Err(Asn1(e))
        case Got(data, _) =>
          match MembersFrom(data, 0, 0)
          case Err(f) => Err(f)
          case Ok(vs) =>
            Ok(Message(id.goCbRef, id.datSet, id.goId, id.tatl, id.utc, n.stNum, n.sqNum, n.confRev, n.test,
                       n.ndsCom, n.entries, vs, appId))
  }

  /** The length field bounds the decode; octets after it are padding. */
  function Parse(apdu: octets): Result<Message, Fault>
  {
    if |apdu| < HEADER_LEN then Err(Protocol)
    else
      var length := U16Of(apdu[2], apdu[3]);
      if length < HEADER_LEN || length > |apdu| then Err(Protocol)
      else
        match ExpectAt(apdu[HEADER_LEN..length], 0, PDU_TAG)
        case Bad(e) => Err(Asn1(e))
        case Got(c, _) => PduFrom(c, U16Of(apdu[0], apdu[1]))
  }

  method ReadString(d: Decoder, n: u32) returns (r: Result<octets, Fault>)
    requires d.Valid()
    modifies d
    ensures d.Valid()
    ensures match StringField(d.data, old(d.off), n)
            case Ok((s, next)) => r == Ok(s) && d.off == next
            case Err(f) => r == Err(f)
  {
    hide ExpectAt;
    var b := d.Expect(ContextPrimitive(n));
    if b.Err? {
      return Err(Asn1(b.error));
    }
    return Ok(b.value);
  }

  method ReadUint32(d: Decoder, n: u32) returns (r: Result<u32, Fault>)
    requires d.Valid()
    modifies d
    ensures d.Valid()
    ensures match Uint32Field(d.data, old(d.off), n)
            case Ok((v, next)) => r == Ok(v) && d.off == next
            case Err(f) => r == Err(f)
  {
    hide ExpectAt, UintOf;
    var b := d.Expect(ContextPrimitive(n));
    if b.Err? {
      return Err(Asn1(b.error));
    }
    var v := DecodeUint(b.value);
    if v.Err? {
      return Err(Asn1(v.error));
    }
    if v.value > U32_MAX {
      return Err(Protocol);
    }
    return Ok(v.value);
  }

  method ReadFlag(d: Decoder, n: u32) returns (r: Result<bool, Fault>)
    requires d.Valid()
    modifies d
    ensures d.Valid()
    ensures match FlagField(d.data, old(d.off), n)
            case Ok((v, next)) => r == Ok(v) && d.off == next
            case Err(f) => r == Err(f)
  {
    hide OptionalAt;
    var b := d.Optional(ContextPrimitive(n));
    if b.Err? {
      return Err(Asn1(b.error));
    }
    if b.value.None? {
      return Ok(false);
    }
    var v := BoolOf(b.value.value);
    return if v.Err? then Err(Asn1(v.error)) else Ok(v.value);
  }

  method ReadIdentity(d: Decoder) returns (r: Result<Identity, Fault>)
    requires d.Valid()
    modifies d
    ensures d.Valid()
    ensures match IdentityFrom(d.data, old(d.off))
            case Ok((id, next)) => r == Ok(id) && d.off == next
            case Err(f) => r == Err(f)
  {
    hide OptionalAt, StringField, Uint32Field;
    var ref := ReadString(d, 0);
    if ref.Err? { return Err(ref.error); }
    var tatl := ReadUint32(d, 1);
    if tatl.Err? { return Err(tatl.error); }
    var dat := ReadString(d, 2);
    if dat.Err? { return Err(dat.error); }
    var id := d.Optional(ContextPrimitive(3));
    if id.Err? { return Err(Asn1(id.error)); }
    var utc := ReadString(d, 4);
    if utc.Err? { return Err(utc.error); }
    if |utc.value| != 8 { return Err(Protocol); }
    return Ok(Identity(ref.value, tatl.value, dat.value, if id.value.Some? then id.value.value else [], utc.value));
  }

  method ReadCounters(d: Decoder) returns (r: Result<Counters, Fault>)
    requires d.Valid()
    modifies d
    ensures d.Valid()
    ensures match CountersFrom(d.data, old(d.off))
            case Ok((n, next)) => r == Ok(n) && d.off == next
            case Err(f) => r == Err(f)
  {
    hide FlagField, Uint32Field;
    var st := ReadUint32(d, 5);
    if st.Err? { return Err(st.error); }
    var sq := ReadUint32(d, 6);
    if sq.Err? { return Err(sq.error); }
    var test := ReadFlag(d, 7);
    if test.Err? { return Err(test.error); }
    var conf := ReadUint32(d, 8);
    if conf.Err? { return Err(conf.error); }
    var nds := ReadFlag(d, 9);
    if nds.Err? { return Err(nds.error); }
    var n := ReadUint32(d, 10);
    if n.Err? { return Err(n.error); }
    return Ok(Counters(st.value, sq.value, test.value, conf.value, nds.value, n.value));
  }

  method ReadMembers(c: octets) returns (r: Result<seq<Value>, Fault>)
    ensures r == MembersFrom(c, 0, 0)
  {
    hide DataFrom;
    var vs: seq<Value> := [];
    var inner := new Decoder(c);
    OntoSteps([], NoValue, MembersFrom(c, 0, 0));
    while inner.More()
      invariant inner.Valid() && inner.data == c && fresh(inner)
      invariant MembersFrom(c, 0, 0) == Onto(vs, MembersFrom(c, inner.off, 0))
      decreases |c| - inner.off
    {
      ghost var at := inner.off;
      var v := DecodeDataAt(inner, 0);
      if v.Err? {
        return Err(v.error);
      }
      OntoSteps(vs, v.value, MembersFrom(c, inner.off, 0));
      vs := vs + [v.value];
    }
    assert vs + [] == vs;
    return Ok(vs);
  }

  method ParseMessage(apdu: octets) returns (r: Result<Message, Fault>)
    ensures r == Parse(apdu)
  {
    hide ExpectAt, IdentityFrom, CountersFrom, MembersFrom;
    if |apdu| < HEADER_LEN { return Err(Protocol); }
    var length := U16Of(apdu[2], apdu[3]);
    if length < HEADER_LEN || length > |apdu| { return Err(Protocol); }
    var outer := new Decoder(apdu[HEADER_LEN..length]);
    var content := outer.Expect(PDU_TAG);
    if content.Err? { return Err(Asn1(content.error)); }
    var d := new Decoder(content.value);
    var id := ReadIdentity(d);
    if id.Err? { return Err(id.error); }
    var n := ReadCounters(d);
    if n.Err? { return Err(n.error); }
    var data := d.Expect(ContextConstructed(11));
    if data.Err? { return Err(Asn1(data.error)); }
    var vs := ReadMembers(data.value);
    if vs.Err? { return Err(vs.error); }
    return Ok(Message(id.value.goCbRef, id.value.datSet, id.value.goId, id.value.tatl, id.value.utc, n.value.stNum,
                      n.value.sqNum, n.value.confRev, n.value.test, n.value.ndsCom, n.value.entries, vs.value,
                      U16Of(apdu[0], apdu[1])));
  }

  // ---- Sizes.

  lemma FieldsNoWideTags(m: Message)
    ensures forall i :: 0 <= i < 12 ==> WideTags(Fields(m)[i]) == 0
    ensures WideTagsAll(Fields(m)) == 0
  {
    NoWideTagsAll(m.values);
    WideTagsSum(Fields(m));
  }

  lemma {:induction false} WideTagsSum(es: seq<Element>)
    requires forall i :: 0 <= i < |es| ==> WideTags(es[i]) == 0
    ensures WideTagsAll(es) == 0
  {
    if es != [] { WideTagsSum(es[1..]); }
  }

  lemma MarshalLength(m: Message)
    ensures |Marshal(m)| == HEADER_LEN + Size(Pdu(m))
  {
    hide Fields, Encode, Size;
    FieldsNoWideTags(m);
    SizeExact(Pdu(m));
  }

  lemma {:induction false} SizeAllUpdate(es: seq<Element>, k: nat, e: Element)
    requires k < |es| && Size(e) <= Size(es[k])
    ensures SizeAll(es[k := e]) <= SizeAll(es)
  {
    hide Size;
    if k > 0 {
      SizeAllUpdate(es[1..], k - 1, e);
      assert es[k := e][1..] == es[1..][k - 1 := e];
    } else {
      assert es[k := e][1..] == es[1..];
    }
  }

  /** The message with its two changing fields at their widest. */
  function Widest(m: Message): Message { m.(sqNum := U32_MAX, tatl := U32_MAX) }

  /** A copy of a message with other sqNum and timeAllowedToLive is never
      longer than the copy with both at their widest. */
  lemma WidestIsLongest(m: Message, sqNum: u32, tatl: u32)
    ensures |Marshal(m.(sqNum := sqNum, tatl := tatl))| <= |Marshal(Widest(m))|
  {
    hide Size, SizeAll, Marshal, UintOctets;
    var copy := m.(sqNum := sqNum, tatl := tatl);
    MarshalLength(copy);
    MarshalLength(Widest(m));
    var w := Fields(Widest(m));
    var sq, ta := UintElem(ContextPrimitive(6), sqNum), UintElem(ContextPrimitive(1), tatl);
    UintElemSmaller(6, sqNum);
    UintElemSmaller(1, tatl);
    SizeAllUpdate(w, 6, sq);
    SizeAllUpdate(w[6 := sq], 1, ta);
    assert Fields(copy) == w[6 := sq][1 := ta];
    PduSizeMono(Fields(copy), w);
  }

  lemma UintElemSmaller(n: u32, v: u32)
    ensures Size(UintElem(ContextPrimitive(n), v)) <= Size(UintElem(ContextPrimitive(n), U32_MAX))
  {
    UintSmaller(v, U32_MAX);
  }

  lemma PduSizeMono(xs: seq<Element>, ys: seq<Element>)
    requires SizeAll(xs) <= SizeAll(ys)
    ensures Size(Cons(PDU_TAG, xs)) <= Size(Cons(PDU_TAG, ys))
  {
  }

  /** The 16-bit length field is the true length exactly when that fits. */
  lemma LengthFieldTrue(m: Message)
    ensures U16Of(Marshal(m)[2], Marshal(m)[3]) == |Marshal(m)| <==> |Marshal(m)| < 0x1_0000
  {
    hide Fields, Encode, Size, U16Octets;
    MarshalLength(m);
    var length: u16 := |Marshal(m)| % 0x1_0000;
    U16RoundTrip(length);
    assert Marshal(m)[2..4] == U16Octets(length);
    assert Marshal(m)[2] == Marshal(m)[2..4][0] && Marshal(m)[3] == Marshal(m)[2..4][1];
  }

  // ---- Round trip.

  lemma FieldAt(es: seq<Element>, k: nat)
    requires k < |es|
    ensures Embedded(Encode(es[k]), EncodeAll(es), |EncodeAll(es[..k])|)
    ensures |EncodeAll(es[..k + 1])| == |EncodeAll(es[..k])| + |Encode(es[k])|
    ensures |EncodeAll(es[..k + 1])| <= |EncodeAll(es)|
  {
    hide Encode;
    EncodeAllNext(es, k);
    assert es == es[..k + 1] + es[k + 1..];
    SizeAllConcat(es[..k + 1], es[k + 1..]);
    var a, b, c := EncodeAll(es[..k]), Encode(es[k]), EncodeAll(es[k + 1..]);
    assert EncodeAll(es) == a + b + c;
  }

  lemma FieldReads(es: seq<Element>, k: nat)
    requires k < |es| && !es[k].Verbatim? && WideTags(es[k]) == 0 && SizeAll(es) < 0x1_0000_0000
    ensures var c, at, next := EncodeAll(es), |EncodeAll(es[..k])|, |EncodeAll(es[..k + 1])|;
            && at <= next <= |c|
            && ExpectAt(c, at, es[k].tag) == Got(Content(es[k]), next)
            && OptionalAt(c, at, es[k].tag) == Got(Some(Content(es[k])), next)
  {
    hide Encode, ExpectAt, OptionalAt;
    FieldAt(es, k);
    SizeAllElement(es, k);
    ElementExpects(es[k], EncodeAll(es), |EncodeAll(es[..k])|, es[k].tag);
  }

  lemma {:induction false} SizeAllElement(es: seq<Element>, k: nat)
    requires k < |es|
    ensures ContentSize(es[k]) <= Size(es[k]) <= SizeAll(es)
  {
    if k > 0 { SizeAllElement(es[1..], k - 1); }
  }

  /** The offset of field `k` in the PDU's content. */
  function Offset(es: seq<Element>, k: nat): nat
    requires k <= |es|
  {
    |EncodeAll(es[..k])|
  }

  lemma StringFieldReads(es: seq<Element>, k: nat, n: u32, s: octets)
    requires k < |es| && SizeAll(es) < 0x1_0000_0000 && n < 31 && es[k] == Primitive(ContextPrimitive(n), s)
    ensures Offset(es, k) <= Offset(es, k + 1) <= |EncodeAll(es)|
    ensures StringField(EncodeAll(es), Offset(es, k), n) == Ok((s, Offset(es, k + 1)))
    ensures OptionalAt(EncodeAll(es), Offset(es, k), ContextPrimitive(n)) == Got(Some(s), Offset(es, k + 1))
  {
    hide ExpectAt, OptionalAt, EncodeAll, SizeAll;
    FieldReads(es, k);
  }

  lemma UintFieldReads(es: seq<Element>, k: nat, n: u32, v: u32)
    requires k < |es| && SizeAll(es) < 0x1_0000_0000 && n < 31 && es[k] == UintElem(ContextPrimitive(n), v)
    ensures Offset(es, k) <= Offset(es, k + 1) <= |EncodeAll(es)|
    ensures Uint32Field(EncodeAll(es), Offset(es, k), n) == Ok((v, Offset(es, k + 1)))
  {
    hide ExpectAt, OptionalAt, EncodeAll, SizeAll, UintOf, UintOctets;
    FieldReads(es, k);
    UintRoundTrip(v);
  }

  lemma FlagFieldReads(es: seq<Element>, k: nat, n: u32, v: bool)
    requires k < |es| && SizeAll(es) < 0x1_0000_0000 && n < 31 && es[k] == BoolElem(ContextPrimitive(n), v)
    ensures Offset(es, k) <= Offset(es, k + 1) <= |EncodeAll(es)|
    ensures FlagField(EncodeAll(es), Offset(es, k), n) == Ok((v, Offset(es, k + 1)))
  {
    hide ExpectAt, OptionalAt, EncodeAll, SizeAll;
    FieldReads(es, k);
  }

  lemma IdentityReads(m: Message)
    requires |m.utc| == 8 && SizeAll(Fields(m)) < 0x1_0000_0000
    ensures IdentityFrom(EncodeAll(Fields(m)), 0)
         == Ok((Identity(m.goCbRef, m.tatl, m.datSet, m.goId, m.utc), Offset(Fields(m), 5)))
  {
    hide OptionalAt, EncodeAll, SizeAll, Offset, StringField, Uint32Field;
    var es := Fields(m);
    NoOffset(es);
    StringFieldReads(es, 0, 0, m.goCbRef);
    UintFieldReads(es, 1, 1, m.tatl);
    StringFieldReads(es, 2, 2, m.datSet);
    StringFieldReads(es, 3, 3, m.goId);
    StringFieldReads(es, 4, 4, m.utc);
  }

  lemma NoOffset(es: seq<Element>)
    ensures Offset(es, 0) == 0
  {
    assert es[..0] == [];
  }

  lemma CountersRead(m: Message)
    requires SizeAll(Fields(m)) < 0x1_0000_0000
    ensures Offset(Fields(m), 5) <= |EncodeAll(Fields(m))|
    ensures CountersFrom(EncodeAll(Fields(m)), Offset(Fields(m), 5))
         == Ok((Counters(m.stNum, m.sqNum, m.test, m.confRev, m.ndsCom, m.entries), Offset(Fields(m), 11)))
  {
    hide EncodeAll, SizeAll, Offset, Uint32Field, FlagField;
    var es := Fields(m);
    UintFieldReads(es, 5, 5, m.stNum);
    UintFieldReads(es, 6, 6, m.sqNum);
    FlagFieldReads(es, 7, 7, m.test);
    UintFieldReads(es, 8, 8, m.confRev);
    FlagFieldReads(es, 9, 9, m.ndsCom);
    UintFieldReads(es, 10, 10, m.entries);
  }

  lemma PduReads(m: Message)
    requires |m.utc| == 8 && WellFormedAll(m.values) && HeightAll(m.values) <= MAX_VALUE_DEPTH
    requires SizeAll(Fields(m)) < 0x1_0000_0000
    ensures PduFrom(EncodeAll(Fields(m)), m.appId) == Ok(m.(values := StripAll(m.values)))
  {
    hide Encode, ExpectAt, OptionalAt, IdentityFrom, CountersFrom, MembersFrom, WideTags;
    IdentityReads(m);
    CountersRead(m);
    var es := Fields(m);
    FieldsNoWideTags(m);
    FieldReads(es, 11);
    var data := DataElements(m.values);
    SizeAllElement(es, 11);
    MembersRead(m.values, EncodeAll(data), 0, 0);
  }

  /** A message whose length fits the 16-bit field reads back whole from its
      octets, padded or not: all but the members that have no encoding. */
  lemma MessageRoundTrip(m: Message, padding: octets)
    requires |m.utc| == 8 && WellFormedAll(m.values) && HeightAll(m.values) <= MAX_VALUE_DEPTH
    requires |Marshal(m)| < 0x1_0000
    ensures Parse(Marshal(m) + padding) == Ok(m.(values := StripAll(m.values)))
  {
    hide Encode, ExpectAt, PduFrom, Fields, Size, Marshal;
    MarshalLength(m);
    LengthFieldTrue(m);
    var apdu, pdu := Marshal(m) + padding, Pdu(m);
    HeaderParts(m);
    assert apdu[HEADER_LEN..|Marshal(m)|] == Marshal(m)[HEADER_LEN..];
    FieldsNoWideTags(m);
    PduContentSmaller(m);
    ElementExpects(pdu, Encode(pdu), 0, PDU_TAG);
    PduReads(m);
  }

  lemma HeaderParts(m: Message)
    ensures Marshal(m)[HEADER_LEN..] == Encode(Pdu(m))
    ensures U16Of(Marshal(m)[0], Marshal(m)[1]) == m.appId
  {
    hide Encode, Fields, Size, U16Octets;
    U16RoundTrip(m.appId);
    assert Marshal(m)[0..2] == U16Octets(m.appId);
    assert Marshal(m)[0] == Marshal(m)[0..2][0] && Marshal(m)[1] == Marshal(m)[0..2][1];
  }

  lemma PduContentSmaller(m: Message)
    ensures SizeAll(Fields(m)) <= Size(Pdu(m))
  {
    hide Fields;
  }
}
