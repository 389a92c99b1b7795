/** MMS `Data` values and their BER codec (src/mms/value.rs,
    src/mms/value_codec.rs, the access error codes of src/mms/errors.rs). */
module ValueCodec {
  import opened Octets
  import opened Ber
  import opened Decoding
  import opened Elements
  import opened Primitives

  datatype DataAccessError =
    | ObjectInvalidated | HardwareFault | TemporarilyUnavailable | ObjectAccessDenied
    | ObjectUndefined | InvalidAddress | TypeUnsupported | TypeInconsistent
    | ObjectAttributeInconsistent | ObjectAccessUnsupported | ObjectNonExistent
    | ObjectValueInvalid | Other(code: byte)

  function Code(e: DataAccessError): byte
  {
    match e
    case ObjectInvalidated => 0
    case HardwareFault => 1
    case TemporarilyUnavailable => 2
    case ObjectAccessDenied => 3
    case ObjectUndefined => 4
    case InvalidAddress => 5
    case TypeUnsupported => 6
    case TypeInconsistent => 7
    case ObjectAttributeInconsistent => 8
    case ObjectAccessUnsupported => 9
    case ObjectNonExistent => 10
    case ObjectValueInvalid => 11
    case Other(n) => n
  }

  function FromCode(code: byte): DataAccessError
  {
    if code == 0 then ObjectInvalidated
    else if code == 1 then HardwareFault
    else if code == 2 then TemporarilyUnavailable
    else if code == 3 then ObjectAccessDenied
    else if code == 4 then ObjectUndefined
    else if code == 5 then InvalidAddress
    else if code == 6 then TypeUnsupported
    else if code == 7 then TypeInconsistent
    else if code == 8 then ObjectAttributeInconsistent
    else if code == 9 then ObjectAccessUnsupported
    else if code == 10 then ObjectNonExistent
    else if code == 11 then ObjectValueInvalid
    else Other(code)
  }

  /** Floats are carried as their bit patterns. */
  datatype Value =
    | NoValue
    | Array(items: seq<Value>)
    | Structure(items: seq<Value>)
    | Boolean(flag: bool)
    | Bits(bitString: BitString)
    | Integer(int_: i64)
    | Unsigned(uint: u64)
    | Float32(single: u32)
    | Float64(double: u64)
    | OctetString(text: octets)
    | VisibleString(text: octets)
    | GeneralizedTime(text: octets)
    | BinaryTime(text: octets)
    | MmsString(text: octets)
    | UtcTime(text: octets)
    | AccessError(error: DataAccessError)

  const MAX_VALUE_DEPTH: nat := 32

  const DATA_ARRAY: u32 := 1
  const DATA_STRUCTURE: u32 := 2
  const DATA_BOOLEAN: u32 := 3
  const DATA_BIT_STRING: u32 := 4
  const DATA_INTEGER: u32 := 5
  const DATA_UNSIGNED: u32 := 6
  const DATA_FLOAT: u32 := 7
  const DATA_OCTET_STRING: u32 := 9
  const DATA_VIS_STRING: u32 := 10
  const DATA_GEN_TIME: u32 := 11
  const DATA_BIN_TIME: u32 := 12
  const DATA_MMS_STRING: u32 := 16
  const DATA_UTC_TIME: u32 := 17

  // ---- Encoding.

  /** The content octets of a value that is not an array or a structure. */
  function ScalarOctets(v: Value): octets
    requires !v.NoValue? && !v.Array? && !v.Structure?
  {
    match v
    case Boolean(b) => BoolOctets(b)
    case Bits(bs) => BitOctets(bs)
    case Integer(n) => IntOctets(n)
    case Unsigned(n) => UintOctets(n)
    case Float32(f) => [8] + BeOctets(f, 4)
    case Float64(f) => [11] + BeOctets(f, 8)
    case AccessError(e) => UintOctets(Code(e) as int)
    case OctetString(t) => t
    case VisibleString(t) => t
    case GeneralizedTime(t) => t
    case BinaryTime(t) => t
    case MmsString(t) => t
    case UtcTime(t) => t
  }

  function TagNumber(v: Value): u32
    requires !v.NoValue?
  {
    match v
    case Array(_) => DATA_ARRAY
    case Structure(_) => DATA_STRUCTURE
    case Boolean(_) => DATA_BOOLEAN
    case Bits(_) => DATA_BIT_STRING
    case Integer(_) => DATA_INTEGER
    case Unsigned(_) => DATA_UNSIGNED
    case Float32(_) => DATA_FLOAT
    case Float64(_) => DATA_FLOAT
    case OctetString(_) => DATA_OCTET_STRING
    case VisibleString(_) => DATA_VIS_STRING
    case GeneralizedTime(_) => DATA_GEN_TIME
    case BinaryTime(_) => DATA_BIN_TIME
    case MmsString(_) => DATA_MMS_STRING
    case UtcTime(_) => DATA_UTC_TIME
    case AccessError(_) => 0
  }

  function DataElement(v: Value): (e: Option<Element>)
    ensures e.None? <==> v.NoValue?
    ensures e.Some? ==> !e.value.Verbatim?
    decreases v
  {
    match v
    case NoValue => None
    case Array(items) => Some(Cons(ContextConstructed(DATA_ARRAY), DataElements(items)))
    case Structure(items) => Some(Cons(ContextConstructed(DATA_STRUCTURE), DataElements(items)))
    case _ => Some(Primitive(ContextPrimitive(TagNumber(v)), ScalarOctets(v)))
  }

  /** A value without an encoding is dropped from its parent. */
  function DataElements(vs: seq<Value>): (es: seq<Element>)
    decreases vs
  {
    if vs == [] then []
    else
      match DataElement(vs[0])
      case None => DataElements(vs[1..])
      case Some(e) => [e] + DataElements(vs[1..])
  }

  // ---- Decoding.

  datatype Fault = Asn1(error: Error) | Protocol

  function ScalarOf(tag: Tag, c: octets): Result<Value, Fault>
  {
    var n := tag.number;
    if n == DATA_BOOLEAN then
      match BoolOf(c)
      case Ok(b) => Ok(Boolean(b))
      case Err(e) => Err(Asn1(e))
    else if n == DATA_BIT_STRING then
      match BitsOf(c)
      case Ok(bs) => Ok(Bits(bs))
      case Err(e) => Err(Asn1(e))
    else if n == DATA_INTEGER then
      match IntOf(c)
      case Ok(i) => Ok(Integer(i))
      case Err(e) => Err(Asn1(e))
    else if n == DATA_UNSIGNED then
      match UintOf(c)
      case Ok(u) => Ok(Unsigned(u))
      case Err(e) => Err(Asn1(e))
    else if n == DATA_FLOAT then FloatOf(c)
    else if n == DATA_OCTET_STRING then Ok(OctetString(c))
    else if n == DATA_VIS_STRING then Ok(VisibleString(c))
    else if n == DATA_GEN_TIME then Ok(GeneralizedTime(c))
    else if n == DATA_BIN_TIME then if |c| != 4 && |c| != 6 then Err(Protocol) else Ok(BinaryTime(c))
    else if n == DATA_MMS_STRING then Ok(MmsString(c))
    else if n == DATA_UTC_TIME then if |c| != 8 then Err(Protocol) else Ok(UtcTime(c))
    else if n == 0 && !tag.constructed then
      match UintOf(c)
      case Ok(u) => Ok(AccessError(FromCode((u % 256) as byte)))
      case Err(e) => Err(Asn1(e))
    else Err(Protocol)
  }

  /** The exponent-width octet is not looked at; the length tells the widths apart. */
  function FloatOf(c: octets): Result<Value, Fault>
  {
    if |c| == 5 then
      BeValueBound(c[1..]);
      Pow256Words();
      Ok(Float32(BeValue(c[1..])))
    else if |c| == 9 then
      BeValueBound(c[1..]);
      Pow256Words();
      Ok(Float64(BeValue(c[1..])))
    else Err(Asn1(BadValue))
  }

  function DataFrom(data: octets, off: nat, depth: nat): (r: Result<(Value, nat), Fault>)
    requires off <= |data|
    ensures r.Ok? ==> off + 2 <= r.value.1 <= |data|
    decreases |data| - off, 0
  {
    if depth > MAX_VALUE_DEPTH then Err(Protocol)
    else
      match TlvAt(data, off, 0)
      case Bad(e) => Err(Asn1(e))
      case Got(e, next) =>
        match ValueOf(e.tag, e.content, depth)
        case Err(f) => Err(f)
        case Ok(v) => Ok((v, next))
  }

  function ValueOf(tag: Tag, c: octets, depth: nat): (r: Result<Value, Fault>)
    decreases |c|, 2
  {
    if tag.class_ != ContextSpecific then Err(Protocol)
    else if tag.number == DATA_ARRAY || tag.number == DATA_STRUCTURE then
      match MembersFrom(c, 0, depth + 1)
      case Err(f) => Err(f)
      case Ok(vs) => Ok(if tag.number == DATA_ARRAY then Array(vs) else Structure(vs))
    else ScalarOf(tag, c)
  }

  function MembersFrom(c: octets, off: nat, depth: nat): (r: Result<seq<Value>, Fault>)
    requires off <= |c|
    decreases |c| - off, 1
  {
    if off >= |c| then Ok([])
    else
      match DataFrom(c, off, depth)
      case Err(f) => Err(f)
      case Ok((v, next)) =>
        match MembersFrom(c, next, depth)
        case Err(f) => Err(f)
        case Ok(vs) => Ok([v] + vs)
  }

  ghost function Onto(done: seq<Value>, r: Result<seq<Value>, Fault>): Result<seq<Value>, Fault>
  {
    match r
    case Err(f) => Err(f)
    case Ok(vs) => Ok(done + vs)
  }

  method DecodeDataAt(dec: Decoder, depth: nat) returns (r: Result<Value, Fault>)
    requires dec.Valid()
    modifies dec
    ensures dec.Valid() && old(dec.off) <= dec.off
    ensures match DataFrom(dec.data, old(dec.off), depth)
            case Ok((v, next)) => r == Ok(v) && dec.off == next
            case Err(f) => r == Err(f)
    decreases |dec.data| - dec.off, 0
  {
    if depth > MAX_VALUE_DEPTH {
      return Err(Protocol);
    }
    var e := dec.ReadTlvAt(0);
    if e.Err? {
      return Err(Asn1(e.error));
    }
    r := DecodeDataTlv(e.value.tag, e.value.content, depth);
  }

  method DecodeDataTlv(tag: Tag, c: octets, depth: nat) returns (r: Result<Value, Fault>)
    ensures r == ValueOf(tag, c, depth)
    decreases |c|, 1
  {
    if tag.class_ != ContextSpecific {
      return Err(Protocol);
    }
    if tag.number != DATA_ARRAY && tag.number != DATA_STRUCTURE {
      return ScalarOf(tag, c);
    }
    var children: seq<Value> := [];
    var inner := new Decoder(c);
    OntoSteps([], NoValue, MembersFrom(c, 0, depth + 1));
    while inner.More()
      invariant inner.Valid() && inner.data == c && fresh(inner)
      invariant MembersFrom(c, 0, depth + 1) == Onto(children, MembersFrom(c, inner.off, depth + 1))
      decreases |c| - inner.off
    {
      ghost var at := inner.off;
      var child := DecodeDataAt(inner, depth + 1);
      if child.Err? {
        return Err(child.error);
      }
      OntoSteps(children, child.value, MembersFrom(c, inner.off, depth + 1));
      children := children + [child.value];
    }
    assert children + [] == children;
    return Ok(if tag.number == DATA_ARRAY then Array(children) else Structure(children));
  }

  lemma OntoSteps(done: seq<Value>, v: Value, r: Result<seq<Value>, Fault>)
    ensures Onto([], r) == r
    ensures Onto(done, Onto([v], r)) == Onto(done + [v], r)
  {
    if r.Ok? { assert [] + r.value == r.value && done + ([v] + r.value) == done + [v] + r.value; }
  }

  /** One `AccessResult`: a `[0]` failure or a success. */
  function AccessResultFrom(data: octets, off: nat): (r: Result<(Value, nat), Fault>)
    requires off <= |data|
  {
    match TagAt(data, off)
    case Bad(e) => Err(Asn1(e))
    case Got(tag, _) =>
      if tag == ContextPrimitive(0) then
        match TlvAt(data, off, 0)
        case Bad(e) => Err(Asn1(e))
        case Got(e, next) =>
          match UintOf(e.content)
          case Err(x) => Err(Asn1(x))
          case Ok(u) => Ok((AccessError(FromCode((u % 256) as byte)), next))
      else DataFrom(data, off, 0)
  }

  /** On every input an access result is read exactly as data would be: data
      takes the failure alternative too. */
  lemma AccessResultIsData(data: octets, off: nat)
    requires off <= |data|
    ensures AccessResultFrom(data, off) == DataFrom(data, off, 0)
  {
    hide UintOf;
    TagOfTlv(data, off);
  }

  lemma TagOfTlv(data: octets, off: nat)
    requires off <= |data|
    ensures TagAt(data, off).Bad? ==> TlvAt(data, off, 0) == Bad(TagAt(data, off).error)
    ensures TagAt(data, off).Got? && TlvAt(data, off, 0).Got? ==> TlvAt(data, off, 0).value.tag == TagAt(data, off).value
  {
    hide TagAt;
  }

  // ---- What an encoded value reads back as.

  /** The value without the members that have no encoding. */
  function Strip(v: Value): Value
    decreases v
  {
    match v
    case Array(items) => Array(StripAll(items))
    case Structure(items) => Structure(StripAll(items))
    case _ => v
  }

  function StripAll(vs: seq<Value>): seq<Value>
    decreases vs
  {
    if vs == [] then []
    else if vs[0].NoValue? then StripAll(vs[1..])
    else [Strip(vs[0])] + StripAll(vs[1..])
  }

  /** How many arrays and structures stand around the innermost value. */
  function Height(v: Value): nat
    decreases v
  {
    match v
    case Array(items) => 1 + HeightAll(items)
    case Structure(items) => 1 + HeightAll(items)
    case _ => 0
  }

  /** One less than the children's level when there is no child to read. */
  function HeightAll(vs: seq<Value>): (h: int)
    ensures h >= -1
    decreases vs
  {
    if vs == [] then -1
    else
      var h, t := if vs[0].NoValue? then -1 else Height(vs[0]), HeightAll(vs[1..]);
      if h > t then h else t
  }

  /** Bit strings packed, times of their fixed length, no named code spelt as
      another: what the constructors and the decoder make. */
  predicate WellFormed(v: Value)
    decreases v
  {
    match v
    case Array(items) => WellFormedAll(items)
    case Structure(items) => WellFormedAll(items)
    case Bits(bs) => PackedBits(bs)
    case BinaryTime(t) => |t| == 4 || |t| == 6
    case UtcTime(t) => |t| == 8
    case AccessError(e) => FromCode(Code(e)) == e
    case _ => true
  }

  predicate WellFormedAll(vs: seq<Value>)
    decreases vs
  {
    vs == [] || (WellFormed(vs[0]) && WellFormedAll(vs[1..]))
  }

  lemma ScalarReads(v: Value)
    requires !v.NoValue? && !v.Array? && !v.Structure? && WellFormed(v)
    ensures ScalarOf(ContextPrimitive(TagNumber(v)), ScalarOctets(v)) == Ok(v)
  {
    hide IntOf, UintOf, FloatOf, BitsOf, IntOctets, UintOctets, BitOctets, BeOctets;
    match v
    case Bits(bs) => BitsRead(bs);
    case Integer(n) => IntRoundTrip(n);
    case Unsigned(n) => UintRoundTrip(n);
    case Float32(f) => FloatReads(8, f, 4);
    case Float64(f) => FloatReads(11, f, 8);
    case AccessError(e) => UintRoundTrip(Code(e) as int);
    case _ =>
  }

  lemma FloatReads(width: byte, f: u64, n: nat)
    requires n == 8 || (n == 4 && f < 0x1_0000_0000)
    ensures FloatOf([width] + BeOctets(f, n)) == Ok(if n == 4 then Float32(f) else Float64(f))
  {
    Pow256Words();
    BeRoundTrip(f, n);
    assert ([width] + BeOctets(f, n))[1..] == BeOctets(f, n);
  }

  lemma {:induction false} NoWideTags(v: Value)
    requires !v.NoValue?
    ensures WideTags(DataElement(v).value) == 0
    decreases v
  {
    if v.Array? || v.Structure? { NoWideTagsAll(v.items); }
  }

  lemma {:induction false} NoWideTagsAll(vs: seq<Value>)
    ensures WideTagsAll(DataElements(vs)) == 0
    decreases vs
  {
    if vs != [] {
      if !vs[0].NoValue? {
        NoWideTags(vs[0]);
        assert DataElements(vs)[1..] == DataElements(vs[1..]);
      }
      NoWideTagsAll(vs[1..]);
    }
  }

  /** A value within the nesting limit reads back, wherever its encoding
      stands, as itself without the members that have none. */
  lemma {:induction false} DataReads(v: Value, data: octets, off: nat, depth: nat)
    requires !v.NoValue? && WellFormed(v) && depth + Height(v) <= MAX_VALUE_DEPTH
    requires var e := DataElement(v).value; Size(e) < 0x1_0000_0000 && Embedded(Encode(e), data, off)
    ensures DataFrom(data, off, depth) == Ok((Strip(v), off + |Encode(DataElement(v).value)|))
    decreases v
  {
    hide TlvAt, Encode, ScalarOf, ScalarOctets;
    var e := DataElement(v).value;
    NoWideTags(v);
    ElementReads(e, data, off);
    if v.Array? || v.Structure? {
      SizeAllExact(DataElements(v.items));
      MembersRead(v.items, Content(e), 0, depth + 1);
    } else {
      ScalarReads(v);
    }
  }

  lemma {:induction false} MembersRead(vs: seq<Value>, c: octets, off: nat, depth: nat)
    requires WellFormedAll(vs) && depth + HeightAll(vs) <= MAX_VALUE_DEPTH
    requires var es := DataElements(vs);
             SizeAll(es) < 0x1_0000_0000 && Embedded(EncodeAll(es), c, off) && off + |EncodeAll(es)| == |c|
    ensures MembersFrom(c, off, depth) == Ok(StripAll(vs))
    decreases vs
  {
    hide DataFrom, Encode, DataElement;
    if vs != [] {
      if vs[0].NoValue? {
        MembersRead(vs[1..], c, off, depth);
      } else {
        var e, es := DataElement(vs[0]).value, DataElements(vs[1..]);
        assert DataElements(vs)[1..] == es;
        EmbeddedParts(Encode(e), EncodeAll(es), c, off);
        DataReads(vs[0], c, off, depth);
        MembersRead(vs[1..], c, off + |Encode(e)|, depth);
      }
    }
  }

  // ---- Whatever decoded encodes to something that decodes the same.

  /** The octets an element takes beyond its content. */
  lemma TlvRoom(data: octets, off: nat, depth: nat)
    requires off <= |data| && TlvAt(data, off, depth).Got?
    ensures var r := TlvAt(data, off, depth);
            var n := |r.value.content|;
            r.next - off >= n + 1 + if LengthSize(n) <= 3 then LengthSize(n) else 3
  {
    hide TagAt, EndOfContentsFrom;
    var at := TagAt(data, off).next;
    var len := LengthAt(data, at);
    if len.value.Some? && len.next > at + 1 {
      BeValueBound(data[at + 1..len.next]);
      assert Pow256(1) == 256 && Pow256(2) == 0x1_0000;
    }
  }

  /** Rewriting a scalar read costs at most one octet more of content, and
      only for numbers, whose contents are short. */
  lemma ScalarRewrites(tag: Tag, c: octets)
    requires ScalarOf(tag, c).Ok?
    ensures var v := ScalarOf(tag, c).value;
            && WellFormed(v) && !v.NoValue? && !v.Array? && !v.Structure?
            && (|ScalarOctets(v)| == |c| || (1 <= |c| <= 9 && |ScalarOctets(v)| <= |c| + 1))
  {
    hide IntOf, UintOf, IntOctets, UintOctets;
    var v := ScalarOf(tag, c).value;
    match v
    case Integer(n) => IntShortest(c); IntRoundTrip(n);
    case Unsigned(n) => UintShortest(c); UintRoundTrip(n);
    case AccessError(e) =>
      var u := UintOf(c).value;
      CodeRoundTrip((u % 256) as byte);
      UintSmaller(u % 256, u);
      UintShortest(c);
    case _ =>
  }

  lemma CodeRoundTrip(code: byte)
    ensures Code(FromCode(code)) == code
  {
  }

  /** What a decode yields is a value the encoder takes whole, whose encoding
      is less than twice as long as what was read. */
  lemma {:induction false} DecodedRewrites(data: octets, off: nat, depth: nat)
    requires off <= |data| && DataFrom(data, off, depth).Ok?
    ensures var (v, next) := DataFrom(data, off, depth).value;
            && !v.NoValue? && WellFormed(v) && Strip(v) == v && depth + Height(v) <= MAX_VALUE_DEPTH
            && Size(DataElement(v).value) <= 2 * (next - off) - 2
    decreases |data| - off, 0
  {
    hide TlvAt, ScalarOf, ScalarOctets;
    var r := TlvAt(data, off, 0);
    var tag, c := r.value.tag, r.value.content;
    TlvRoom(data, off, 0);
    var v := DataFrom(data, off, depth).value.0;
    if tag.number == DATA_ARRAY || tag.number == DATA_STRUCTURE {
      MembersRewrite(c, 0, depth + 1);
      assert Size(DataElement(v).value) == 1 + LengthSize(SizeAll(DataElements(v.items))) + SizeAll(DataElements(v.items));
    } else {
      ScalarRewrites(tag, c);
      assert Size(DataElement(v).value) == 1 + LengthSize(|ScalarOctets(v)|) + |ScalarOctets(v)|;
    }
  }

  lemma {:induction false} MembersRewrite(c: octets, off: nat, depth: nat)
    requires off <= |c| && MembersFrom(c, off, depth).Ok?
    ensures var vs := MembersFrom(c, off, depth).value;
            && WellFormedAll(vs) && StripAll(vs) == vs
            && (vs != [] ==> depth + HeightAll(vs) <= MAX_VALUE_DEPTH)
            && (off == |c| ==> vs == [])
            && SizeAll(DataElements(vs)) <= if off == |c| then 0 else 2 * (|c| - off) - 2
    decreases |c| - off, 1
  {
    hide DataFrom, Size, DataElement, Height, Strip;
    if off < |c| {
      var (v, next) := DataFrom(c, off, depth).value;
      DecodedRewrites(c, off, depth);
      MembersRewrite(c, next, depth);
      var vs, rest := MembersFrom(c, off, depth).value, MembersFrom(c, next, depth).value;
      assert vs == [v] + rest && vs[0] == v && vs[1..] == rest;
      assert DataElements(vs) == [DataElement(v).value] + DataElements(rest);
      assert DataElements(vs)[1..] == DataElements(rest);
    }
  }

  function EncodeData(v: Value): octets
  {
    match DataElement(v)
    case None => []
    case Some(e) => Encode(e)
  }

  /** Every well-formed value within the nesting limit round-trips, exactly up
      to the members that have no encoding: whole exactly when it has none. */
  lemma DataRoundTrip(v: Value)
    requires !v.NoValue? && WellFormed(v) && Height(v) <= MAX_VALUE_DEPTH
    requires Size(DataElement(v).value) < 0x1_0000_0000
    ensures DataFrom(EncodeData(v), 0, 0) == Ok((Strip(v), |EncodeData(v)|))
    ensures DataFrom(EncodeData(v), 0, 0) == Ok((v, |EncodeData(v)|)) <==> Strip(v) == v
  {
    hide DataFrom;
    DataReads(v, EncodeData(v), 0, 0);
  }

  /** Whatever octets decode to encodes to octets that decode to the same value,
      as long as the 32 bits of a length can tell its size, which they can for
      every input of up to 2^31 octets. */
  lemma DecodeReencode(data: octets)
    requires DataFrom(data, 0, 0).Ok?
    ensures var v := DataFrom(data, 0, 0).value.0;
            && DataElement(v).Some? && (|data| <= 0x8000_0000 ==> Size(DataElement(v).value) < 0x1_0000_0000)
            && (Size(DataElement(v).value) < 0x1_0000_0000 ==> DataFrom(EncodeData(v), 0, 0) == Ok((v, |EncodeData(v)|)))
  {
    hide DataFrom;
    DecodedRewrites(data, 0, 0);
    var v := DataFrom(data, 0, 0).value.0;
    if Size(DataElement(v).value) < 0x1_0000_0000 { DataRoundTrip(v); }
  }
}
