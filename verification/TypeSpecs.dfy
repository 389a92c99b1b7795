/** MMS type specifications: codec, default values and the cost that guards
    materialising them (src/mms/typespec.rs). */
module TypeSpecs {
  import opened Octets
  import opened Ber
  import opened Decoding
  import opened Elements
  import opened Primitives
  import opened ValueCodec

  datatype Type =
    | TNone | TArray | TStructure | TBoolean | TBitString | TInteger | TUnsigned | TFloat32 | TFloat64
    | TOctetString | TVisibleString | TGeneralizedTime | TBinaryTime | TMmsString | TUtcTime | TDataAccessError

  datatype Component = Component(name: octets, spec: TypeSpec)

  datatype TypeSpec = TypeSpec(kind: Option<Type>, size: i32, elements: u64, element: Option<TypeSpec>,
                               components: seq<Component>)

  function Scalar(kind: Type): TypeSpec { TypeSpec(Some(kind), 0, 0, None, []) }
  function Sized(kind: Type, size: i32): TypeSpec { TypeSpec(Some(kind), size, 0, None, []) }
  function ArrayOf(elements: u64, element: TypeSpec): TypeSpec { TypeSpec(Some(TArray), 0, elements, Some(element), []) }
  function StructureOf(components: seq<Component>): TypeSpec { TypeSpec(Some(TStructure), 0, 0, None, components) }

  // ---- Encoding.

  /** A 32-bit size widened to 64 bits as `as u64` does: sign-extended. */
  function WidenSize(n: i32): u64 { if n < 0 then n + 0x1_0000_0000_0000_0000 else n }

  /** A 64-bit number cut to 32 bits as `as i32` does. */
  function NarrowSize(n: int): i32
  {
    var m := n % 0x1_0000_0000;
    if m < 0x8000_0000 then m else m - 0x1_0000_0000
  }

  function Present(e: Option<Element>): seq<Element>
  {
    match e
    case None => []
    case Some(x) => [x]
  }

  function LeafBer(kind: Type, size: i32): (e: Option<Element>)
    ensures e.Some? ==> !e.value.Verbatim? && WideTags(e.value) == 0 && Size(e.value) < 30
  {
    IntRoundTrip(size);
    UintRoundTrip(WidenSize(size));
    match kind
    case TBoolean => Some(Primitive(ContextPrimitive(DATA_BOOLEAN), []))
    case TBitString => Some(IntElem(ContextPrimitive(DATA_BIT_STRING), size))
    case TInteger => Some(UintElem(ContextPrimitive(DATA_INTEGER), WidenSize(size)))
    case TUnsigned => Some(UintElem(ContextPrimitive(DATA_UNSIGNED), WidenSize(size)))
    case TFloat32 => Some(FloatBer(32, 8))
    case TFloat64 => Some(FloatBer(64, 11))
    case TOctetString => Some(IntElem(ContextPrimitive(DATA_OCTET_STRING), size))
    case TVisibleString => Some(IntElem(ContextPrimitive(DATA_VIS_STRING), size))
    case TGeneralizedTime => Some(Primitive(ContextPrimitive(DATA_GEN_TIME), []))
    case TBinaryTime => Some(BoolElem(ContextPrimitive(DATA_BIN_TIME), true))
    case TMmsString => Some(IntElem(ContextPrimitive(DATA_MMS_STRING), size))
    case TUtcTime => Some(Primitive(ContextPrimitive(DATA_UTC_TIME), []))
    case _ => None
  }

  function FloatBer(format: i64, exponent: i64): (e: Element)
    ensures e.Constructed? && WideTags(e) == 0 && Size(e) < 30
  {
    IntRoundTrip(format);
    IntRoundTrip(exponent);
    var a, b := IntElem(TAG_INTEGER, format), IntElem(TAG_INTEGER, exponent);
    TwoElements(a, b);
    Cons(ContextConstructed(DATA_FLOAT), [a, b])
  }

  function SpecBer(ts: TypeSpec): (e: Option<Element>)
    ensures e.Some? ==> !e.value.Verbatim?
    decreases ts
  {
    match ts.kind
    case None => None
    case Some(TArray) =>
      var el := match ts.element { case None => None case Some(e) => SpecBer(e) };
      Some(Cons(ContextConstructed(DATA_ARRAY),
                [UintElem(ContextPrimitive(1), ts.elements), Cons(ContextConstructed(2), Present(el))]))
    case Some(TStructure) =>
      Some(Cons(ContextConstructed(DATA_STRUCTURE), [Cons(ContextConstructed(1), ComponentsBer(ts.components))]))
    case Some(k) => LeafBer(k, ts.size)
  }

  function ComponentsBer(cs: seq<Component>): (es: seq<Element>)
    decreases cs
  {
    if cs == [] then []
    else
      [Cons(TAG_SEQUENCE, [Primitive(ContextPrimitive(0), cs[0].name),
                           Cons(ContextConstructed(1), Present(SpecBer(cs[0].spec)))])]
      + ComponentsBer(cs[1..])
  }

  // ---- Decoding.

  const MAX_ARRAY_ELEMENTS: nat := 0x1_0000
  const MAX_BIT_STRING_BITS: int := 0x1_0000
  const MAX_DEFAULT_VALUES: nat := 0x10_0000
  const VALUE_CEILING: nat := MAX_DEFAULT_VALUES + 1

  function LeafOf(number: u32, c: octets): Result<TypeSpec, Fault>
  {
    if number == DATA_BOOLEAN then Ok(Scalar(TBoolean))
    else if number == DATA_BIT_STRING then
      match IntOf(c)
      case Err(e) => Err(Asn1(e))
      case Ok(bits) =>
        if bits < -MAX_BIT_STRING_BITS || bits > MAX_BIT_STRING_BITS then Err(Protocol)
        else Ok(Sized(TBitString, bits))
    else if number == DATA_INTEGER then UnsignedSize(TInteger, c)
    else if number == DATA_UNSIGNED then UnsignedSize(TUnsigned, c)
    else if number == DATA_FLOAT then
      match ExpectAt(c, 0, TAG_INTEGER)
      case Bad(e) => Err(Asn1(e))
      case Got(fw, _) =>
        match IntOf(fw)
        case Err(e) => Err(Asn1(e))
        case Ok(width) => Ok(Scalar(if width > 32 then TFloat64 else TFloat32))
    else if number == DATA_OCTET_STRING then SignedSize(TOctetString, c)
    else if number == DATA_VIS_STRING then SignedSize(TVisibleString, c)
    else if number == DATA_GEN_TIME then Ok(Scalar(TGeneralizedTime))
    else if number == DATA_BIN_TIME then Ok(Scalar(TBinaryTime))
    else if number == DATA_MMS_STRING then SignedSize(TMmsString, c)
    else if number == DATA_UTC_TIME then Ok(Scalar(TUtcTime))
    else Err(Protocol)
  }

  function UnsignedSize(kind: Type, c: octets): Result<TypeSpec, Fault>
  {
    match UintOf(c)
    case Err(e) => Err(Asn1(e))
    case Ok(n) => Ok(Sized(kind, NarrowSize(n)))
  }

  function SignedSize(kind: Type, c: octets): Result<TypeSpec, Fault>
  {
    match IntOf(c)
    case Err(e) => Err(Asn1(e))
    case Ok(n) => Ok(Sized(kind, NarrowSize(n)))
  }

  function SpecFrom(data: octets, off: nat, depth: nat): (r: Result<(TypeSpec, nat), Fault>)
    requires off <= |data|
    ensures r.Ok? ==> off + 2 <= r.value.1 <= |data|
    decreases |data| - off, 0
  {
    if depth > MAX_VALUE_DEPTH then Err(Protocol)
    else
      match TlvAt(data, off, 0)
      case Bad(e) => Err(Asn1(e))
      case Got(e, next) =>
        match SpecOf(e.tag, e.content, depth)
        case Err(f) => Err(f)
        case Ok(ts) => Ok((ts, next))
  }

  function SpecOf(tag: Tag, c: octets, depth: nat): (r: Result<TypeSpec, Fault>)
    decreases |c|, 2
  {
    if tag.class_ != ContextSpecific then Err(Protocol)
    else if tag.number == DATA_ARRAY then ArraySpecOf(c, depth)
    else if tag.number == DATA_STRUCTURE then
      match OptionalAt(c, 0, ContextPrimitive(0))
      case Bad(e) => Err(Asn1(e))
      case Got(_, at) =>
        match ExpectAt(c, at, ContextConstructed(1))
        case Bad(e) => Err(Asn1(e))
        case Got(comps, _) =>
          match ComponentsFrom(comps, 0, depth)
          case Err(f) => Err(f)
          case Ok(cs) => Ok(StructureOf(cs))
    else LeafOf(tag.number, c)
  }

  function ArraySpecOf(c: octets, depth: nat): (r: Result<TypeSpec, Fault>)
    decreases |c|, 1
  {
    match OptionalAt(c, 0, ContextPrimitive(0))
    case Bad(e) => Err(Asn1(e))
    case Got(_, at) =>
      match ExpectAt(c, at, ContextPrimitive(1))
      case Bad(e) => Err(Asn1(e))
      case Got(nc, at2) =>
        match UintOf(nc)
        case Err(e) => Err(Asn1(e))
        case Ok(declared) =>
          if declared > MAX_ARRAY_ELEMENTS then Err(Protocol)
          else
            match ExpectAt(c, at2, ContextConstructed(2))
            case Bad(e) => Err(Asn1(e))
            case Got(ec, _) =>
              match SpecFrom(ec, 0, depth + 1)
              case Err(f) => Err(f)
              case Ok((ts, _)) => Ok(ArrayOf(declared, ts))
  }

  function ComponentOf(c: octets, depth: nat): (r: Result<Component, Fault>)
    decreases |c|, 1
  {
    match OptionalAt(c, 0, ContextPrimitive(0))
    case Bad(e) => Err(Asn1(e))
    case Got(name, at) =>
      match ExpectAt(c, at, ContextConstructed(1))
      case Bad(e) => Err(Asn1(e))
      case Got(sc, _) =>
        match SpecFrom(sc, 0, depth + 1)
        case Err(f) => Err(f)
        case Ok((ts, _)) => Ok(Component(if name.Some? then name.value else [], ts))
  }

  function ComponentsFrom(c: octets, off: nat, depth: nat): (r: Result<seq<Component>, Fault>)
    requires off <= |c|
    decreases |c| - off, 2
  {
    if off >= |c| then Ok([])
    else
      match ExpectAt(c, off, TAG_SEQUENCE)
      case Bad(e) => Err(Asn1(e))
      case Got(s, next) =>
        match ComponentOf(s, depth)
        case Err(f) => Err(f)
        case Ok(x) =>
          match ComponentsFrom(c, next, depth)
          case Err(f) => Err(f)
          case Ok(xs) => Ok([x] + xs)
  }

  function DecodeSpec(data: octets, off: nat): (r: Result<(TypeSpec, nat), Fault>)
    requires off <= |data|
  {
    match SpecFrom(data, off, 0)
    case Err(f) => Err(f)
    case Ok((ts, next)) => if ValueCount(ts) > MAX_DEFAULT_VALUES then Err(Protocol) else Ok((ts, next))
  }

  // ---- The cost of materialising a specification.

  /** The saturating cost the decoder checks. */
  function ValueCount(ts: TypeSpec): (n: nat)
    ensures 1 <= n <= VALUE_CEILING
    decreases ts
  {
    match ts.kind
    case Some(TArray) =>
      var per := match ts.element { case None => 0 case Some(e) => ValueCount(e) };
      if per == 0 || ts.elements == 0 then 1
      else if ts.elements >= VALUE_CEILING / per then VALUE_CEILING
      else
        BelowQuotient(ts.elements, per, VALUE_CEILING);
        1 + ts.elements * per
    case Some(TStructure) => ComponentsCount(ts.components, 1)
    case _ => 1
  }

  function ComponentsCount(cs: seq<Component>, total: nat): (n: nat)
    requires 1 <= total < VALUE_CEILING
    ensures total <= n <= VALUE_CEILING
    decreases cs
  {
    if cs == [] then total
    else
      var t := total + ValueCount(cs[0].spec);
      if t >= VALUE_CEILING then VALUE_CEILING else ComponentsCount(cs[1..], t)
  }

  lemma BelowQuotient(n: nat, d: nat, c: nat)
    requires d >= 1
    ensures n < c / d ==> n * d + d <= c
    ensures n >= c / d ==> n * d + d > c
  {
    var q, r := c / d, c % d;
    assert c == q * d + r;
    if n < q { assert (q - n - 1) * d >= 0; } else { assert (n - q) * d >= 0; }
  }

  /** The count in 64-bit arithmetic: no step overflows, however arrays nest. */
  method CountValuesOf(ts: TypeSpec) returns (n: u64)
    ensures n == ValueCount(ts)
    decreases ts
  {
    if ts.kind == Some(TArray) {
      var per: u64 := 0;
      if ts.element.Some? { per := CountValuesOf(ts.element.value); }
      if per == 0 || ts.elements == 0 { return 1; }
      if ts.elements >= VALUE_CEILING / per { return VALUE_CEILING; }
      BelowQuotient(ts.elements, per, VALUE_CEILING);
      var product: u64 := ts.elements * per;
      return 1 + product;
    }
    if ts.kind == Some(TStructure) {
      var total: u64 := 1;
      for i := 0 to |ts.components|
        invariant 1 <= total < VALUE_CEILING
        invariant ComponentsCount(ts.components, 1) == ComponentsCount(ts.components[i..], total)
      {
        var k := CountValuesOf(ts.components[i].spec);
        assert ts.components[i..][1..] == ts.components[i + 1..];
        total := total + k;
        if total >= VALUE_CEILING { return VALUE_CEILING; }
      }
      return total;
    }
    return 1;
  }

  function DefaultValue(ts: TypeSpec): (v: Value)
    decreases ts
  {
    match ts.kind
    case None => NoValue
    case Some(TArray) =>
      var x := match ts.element { case None => NoValue case Some(e) => DefaultValue(e) };
      Array(seq(ts.elements, i => x))
    case Some(TStructure) => Structure(DefaultValues(ts.components))
    case Some(TBoolean) => Boolean(false)
    case Some(TBitString) => Bits(ZeroBits(Magnitude(ts.size)))
    case Some(TInteger) => Integer(0)
    case Some(TUnsigned) => Unsigned(0)
    case Some(TFloat32) => Float32(0)
    case Some(TFloat64) => Float64(0)
    case Some(TOctetString) => OctetString([])
    case Some(TVisibleString) => VisibleString([])
    case Some(TMmsString) => MmsString([])
    case Some(TGeneralizedTime) => GeneralizedTime([])
    case Some(TBinaryTime) => BinaryTime([0, 0, 0, 0, 0, 0])
    case Some(TUtcTime) => UtcTime([0, 0, 0, 0, 0, 0, 0, 0])
    case Some(_) => NoValue
  }

  function Magnitude(n: int): nat { if n < 0 then -n else n }

  function ZeroBits(n: nat): BitString { BitString(seq((n + 7) / 8, i => 0), n) }

  function DefaultValues(cs: seq<Component>): (vs: seq<Value>)
    ensures |vs| == |cs|
    decreases cs
  {
    if cs == [] then [] else [DefaultValue(cs[0].spec)] + DefaultValues(cs[1..])
  }

  /** How many values a value is made of, itself included. */
  function Census(v: Value): (n: nat)
    ensures n >= 1
    decreases v
  {
    match v
    case Array(items) => 1 + CensusAll(items)
    case Structure(items) => 1 + CensusAll(items)
    case _ => 1
  }

  function CensusAll(vs: seq<Value>): (n: nat)
    decreases vs
  {
    if vs == [] then 0 else Census(vs[0]) + CensusAll(vs[1..])
  }

  lemma {:induction false} CensusOfCopies(n: nat, x: Value)
    ensures CensusAll(seq(n, i => x)) == n * Census(x)
  {
    if n > 0 {
      CensusOfCopies(n - 1, x);
      assert seq(n, i => x)[1..] == seq(n - 1, i => x);
    }
  }

  lemma CensusOfArray(ts: TypeSpec, e: TypeSpec)
    requires ts.kind == Some(TArray) && ts.element == Some(e)
    ensures Census(DefaultValue(ts)) == 1 + ts.elements * Census(DefaultValue(e))
  {
    CensusOfCopies(ts.elements, DefaultValue(e));
  }

  /** Some array that would be built names no element type: what is built for
      its elements is not counted. */
  predicate LeavesOut(ts: TypeSpec)
    decreases ts
  {
    match ts.kind
    case Some(TArray) => ts.elements > 0 && (ts.element.None? || LeavesOut(ts.element.value))
    case Some(TStructure) => AnyLeavesOut(ts.components)
    case _ => false
  }

  predicate AnyLeavesOut(cs: seq<Component>)
    decreases cs
  {
    cs != [] && (LeavesOut(cs[0].spec) || AnyLeavesOut(cs[1..]))
  }

  /** The values that are built, those left out apart. */
  function Counted(ts: TypeSpec): (n: nat)
    ensures n >= 1
    decreases ts
  {
    match ts.kind
    case Some(TArray) => 1 + (match ts.element { case None => 0 case Some(e) => ts.elements * Counted(e) })
    case Some(TStructure) => 1 + CountedAll(ts.components)
    case _ => 1
  }

  function CountedAll(cs: seq<Component>): (n: nat)
    decreases cs
  {
    if cs == [] then 0 else Counted(cs[0].spec) + CountedAll(cs[1..])
  }

  lemma {:induction false} CountedOfBuilt(ts: TypeSpec)
    ensures Counted(ts) <= Census(DefaultValue(ts))
    ensures Counted(ts) == Census(DefaultValue(ts)) <==> !LeavesOut(ts)
    decreases ts
  {
    match ts.kind
    case Some(TArray) =>
      match ts.element {
        case None => CensusOfCopies(ts.elements, NoValue);
        case Some(e) =>
          CountedOfBuilt(e);
          CensusOfArray(ts, e);
          ProductsAgree(ts.elements, Counted(e), Census(DefaultValue(e)));
      }
    case Some(TStructure) => CountedAllOfBuilt(ts.components);
    case _ =>
  }

  lemma {:induction false} CountedAllOfBuilt(cs: seq<Component>)
    ensures CountedAll(cs) <= CensusAll(DefaultValues(cs))
    ensures CountedAll(cs) == CensusAll(DefaultValues(cs)) <==> !AnyLeavesOut(cs)
    decreases cs
  {
    if cs != [] {
      CountedOfBuilt(cs[0].spec);
      CountedAllOfBuilt(cs[1..]);
      assert DefaultValues(cs)[1..] == DefaultValues(cs[1..]);
    }
  }

  lemma ProductsAgree(n: nat, a: nat, b: nat)
    requires a <= b
    ensures n * a <= n * b && (n * a == n * b <==> n == 0 || a == b)
  {
    assert n * b - n * a == n * (b - a);
  }

  /** Some array that would be built meets the saturation guard although its
      values stay below the ceiling. */
  predicate SaturatesEarly(ts: TypeSpec)
    decreases ts
  {
    match ts.kind
    case Some(TArray) =>
      ts.elements > 0 && ts.element.Some? &&
      (var per := ValueCount(ts.element.value);
       SaturatesEarly(ts.element.value) || (ts.elements >= VALUE_CEILING / per && 1 + ts.elements * per < VALUE_CEILING))
    case Some(TStructure) => AnySaturatesEarly(ts.components)
    case _ => false
  }

  predicate AnySaturatesEarly(cs: seq<Component>)
    decreases cs
  {
    cs != [] && (SaturatesEarly(cs[0].spec) || AnySaturatesEarly(cs[1..]))
  }

  lemma {:induction false} CountOfCounted(ts: TypeSpec)
    ensures ValueCount(ts) ==
            if Counted(ts) >= VALUE_CEILING || SaturatesEarly(ts) then VALUE_CEILING else Counted(ts)
    decreases ts
  {
    match ts.kind
    case Some(TArray) =>
      if ts.element.Some? {
        var e := ts.element.value;
        CountOfCounted(e);
        ArrayCountExact(ts.elements, ValueCount(e), Counted(e), SaturatesEarly(e));
      }
    case Some(TStructure) => ComponentsCountExact(ts.components, 1);
    case _ =>
  }

  /** Below the ceiling, the count is the number of values `default_value` builds
      unless an array saturates early or names no element type; from the ceiling
      on, it is the ceiling unless an array names no element type. */
  lemma CountExact(ts: TypeSpec)
    ensures var built := Census(DefaultValue(ts));
            && (built < VALUE_CEILING ==> (ValueCount(ts) == built <==> !SaturatesEarly(ts) && !LeavesOut(ts)))
            && (!LeavesOut(ts) ==>
                  ValueCount(ts) == if built >= VALUE_CEILING || SaturatesEarly(ts) then VALUE_CEILING else built)
  {
    CountedOfBuilt(ts);
    CountOfCounted(ts);
  }

  /** Five elements of no type are built and not counted. */
  lemma NoElementTypeExample()
    ensures var ts := ArrayOf(5, Scalar(TBoolean)).(element := None);
            LeavesOut(ts) && ValueCount(ts) == 1 && Census(DefaultValue(ts)) == 6
  {
    CensusOfCopies(5, NoValue);
  }

  lemma ArrayCountExact(n: nat, per: nat, exact: nat, early: bool)
    requires exact >= 1
    requires per == if exact >= VALUE_CEILING || early then VALUE_CEILING else exact
    ensures n > 0 && per == VALUE_CEILING ==> n >= VALUE_CEILING / per
    ensures n > 0 && exact >= VALUE_CEILING ==> 1 + n * exact >= VALUE_CEILING
    ensures per == exact && n < VALUE_CEILING / per && 1 + n * exact >= VALUE_CEILING ==> 1 + n * per == VALUE_CEILING
    ensures n == 0 ==> 1 + n * exact == 1
  {
    BelowQuotient(n, per, VALUE_CEILING);
    if n > 0 { assert n * exact >= exact; }
  }

  lemma {:induction false} ComponentsCountExact(cs: seq<Component>, total: nat)
    requires 1 <= total < VALUE_CEILING
    ensures var exact := total + CountedAll(cs);
            && ComponentsCount(cs, total)
               == if exact >= VALUE_CEILING || AnySaturatesEarly(cs) then VALUE_CEILING else exact
    decreases cs
  {
    if cs != [] {
      CountOfCounted(cs[0].spec);
      var t := total + ValueCount(cs[0].spec);
      if t < VALUE_CEILING { ComponentsCountExact(cs[1..], t); }
    }
  }

  /** An array of 52428 structures of 19 booleans makes 1048561 values, within
      the limit of 2^20, and is costed over it. */
  lemma EarlySaturationExample()
    ensures var leaf := StructureOf(seq(19, i => Component([], Scalar(TBoolean))));
            var ts := ArrayOf(52428, leaf);
            && !LeavesOut(ts) && SaturatesEarly(ts) && ValueCount(ts) > MAX_DEFAULT_VALUES
            && Census(DefaultValue(ts)) == 1048561 <= MAX_DEFAULT_VALUES
  {
    var c := Component([], Scalar(TBoolean));
    var leaf := StructureOf(seq(19, i => c));
    BooleansCount(19, c);
    CountExact(leaf);
    CensusOfArray(ArrayOf(52428, leaf), leaf);
  }

  lemma {:induction false} BooleansCount(n: nat, c: Component)
    requires c.spec == Scalar(TBoolean)
    ensures var cs := seq(n, i => c);
            !AnyLeavesOut(cs) && !AnySaturatesEarly(cs) && CensusAll(DefaultValues(cs)) == n
  {
    var cs := seq(n, i => c);
    if n > 0 {
      BooleansCount(n - 1, c);
      assert cs[1..] == seq(n - 1, i => c);
      assert DefaultValues(cs)[1..] == DefaultValues(cs[1..]);
    }
  }

  // ---- Round trip.

  /** The shape the decoder gives a specification: only the fields its kind
      uses, within the declared limits. */
  predicate Canonical(ts: TypeSpec)
    decreases ts
  {
    match ts.kind
    case None => false
    case Some(TArray) =>
      && ts.size == 0 && ts.components == [] && ts.elements <= MAX_ARRAY_ELEMENTS
      && ts.element.Some? && Canonical(ts.element.value)
    case Some(TStructure) =>
      ts.size == 0 && ts.elements == 0 && ts.element.None? && CanonicalAll(ts.components)
    case Some(k) =>
      && ts.elements == 0 && ts.element.None? && ts.components == []
      && k != TNone && k != TDataAccessError
      && (k == TBitString ==> -MAX_BIT_STRING_BITS <= ts.size <= MAX_BIT_STRING_BITS)
      && (k in {TBoolean, TFloat32, TFloat64, TGeneralizedTime, TBinaryTime, TUtcTime} ==> ts.size == 0)
  }

  predicate CanonicalAll(cs: seq<Component>)
    decreases cs
  {
    cs == [] || (Canonical(cs[0].spec) && CanonicalAll(cs[1..]))
  }

  function SpecHeight(ts: TypeSpec): nat
    decreases ts
  {
    match ts.kind
    case Some(TArray) => if ts.element.Some? then 1 + SpecHeight(ts.element.value) else 0
    case Some(TStructure) => 1 + ComponentsHeight(ts.components)
    case _ => 0
  }

  function ComponentsHeight(cs: seq<Component>): (h: int)
    ensures h >= -1
    decreases cs
  {
    if cs == [] then -1
    else
      var h, t := SpecHeight(cs[0].spec), ComponentsHeight(cs[1..]);
      if h > t then h else t
  }

  lemma {:induction false} SpecNoWideTags(ts: TypeSpec)
    requires SpecBer(ts).Some?
    ensures WideTags(SpecBer(ts).value) == 0
    decreases ts
  {
    hide LeafBer;
    match ts.kind
    case Some(TArray) =>
      var el := if ts.element.Some? then SpecBer(ts.element.value) else None;
      if el.Some? {
        SpecNoWideTags(ts.element.value);
        OneElement(el.value);
      }
      TwoElements(UintElem(ContextPrimitive(1), ts.elements), Cons(ContextConstructed(2), Present(el)));
    case Some(TStructure) =>
      ComponentsNoWideTags(ts.components);
      OneElement(Cons(ContextConstructed(1), ComponentsBer(ts.components)));
    case _ =>
  }

  function ComponentBer(c: Component): Element
  {
    Cons(TAG_SEQUENCE, [Primitive(ContextPrimitive(0), c.name), SpecHolder(c.spec)])
  }

  function SpecHolder(ts: TypeSpec): Element { Cons(ContextConstructed(1), Present(SpecBer(ts))) }

  lemma {:induction false} ComponentNoWideTags(c: Component)
    ensures WideTags(ComponentBer(c)) == 0
    decreases c, 1
  {
    hide SpecBer;
    var el := SpecBer(c.spec);
    if el.Some? {
      SpecNoWideTags(c.spec);
      OneElement(el.value);
    }
    TwoElements(Primitive(ContextPrimitive(0), c.name), SpecHolder(c.spec));
  }

  lemma {:induction false} ComponentsNoWideTags(cs: seq<Component>)
    ensures WideTagsAll(ComponentsBer(cs)) == 0
    decreases cs
  {
    hide SpecBer;
    if cs != [] {
      ComponentNoWideTags(cs[0]);
      ComponentsNoWideTags(cs[1..]);
      assert ComponentsBer(cs)[1..] == ComponentsBer(cs[1..]);
    }
  }

  lemma NarrowWiden(n: i32)
    ensures NarrowSize(WidenSize(n)) == n && NarrowSize(n) == n
  {
  }

  lemma LeafReads(k: Type, size: i32)
    requires Canonical(Sized(k, size)) && k != TArray && k != TStructure
    ensures LeafBer(k, size).Some?
    ensures var e := LeafBer(k, size).value;
            && e.tag.class_ == ContextSpecific && e.tag.number != DATA_ARRAY && e.tag.number != DATA_STRUCTURE
            && LeafOf(e.tag.number, Content(e)) == Ok(Sized(k, size))
  {
    hide IntOf, UintOf, IntOctets, UintOctets, ExpectAt, Encode, FloatBer, Size, WideTags, WidenSize, NarrowSize;
    IntRoundTrip(size);
    UintRoundTrip(WidenSize(size));
    NarrowWiden(size);
    if k == TFloat32 { FloatSpecReads(32, 8); }
    if k == TFloat64 { FloatSpecReads(64, 11); }
  }

  lemma FloatSpecReads(format: i64, exponent: i64)
    ensures var e := FloatBer(format, exponent);
            && e.tag == ContextConstructed(DATA_FLOAT)
            && ExpectAt(Content(e), 0, TAG_INTEGER).Got?
            && IntOf(ExpectAt(Content(e), 0, TAG_INTEGER).value) == Ok(format)
  {
    hide IntOf, IntOctets, ExpectAt, Encode;
    IntRoundTrip(format);
    IntRoundTrip(exponent);
    var a, b := IntElem(TAG_INTEGER, format), IntElem(TAG_INTEGER, exponent);
    TwoElements(a, b);
    EmbeddedConcat(Encode(a), Encode(b));
    ElementExpects(a, Encode(a) + Encode(b), 0, TAG_INTEGER);
  }

  /** A canonical specification within the nesting limit reads back wherever
      its encoding stands. */
  lemma {:induction false} SpecReads(ts: TypeSpec, data: octets, off: nat, depth: nat)
    requires Canonical(ts) && depth + SpecHeight(ts) <= MAX_VALUE_DEPTH
    requires SpecBer(ts).Some?
    requires Size(SpecBer(ts).value) < 0x1_0000_0000 && Embedded(Encode(SpecBer(ts).value), data, off)
    ensures SpecFrom(data, off, depth) == Ok((ts, off + |Encode(SpecBer(ts).value)|))
    decreases ts, 1
  {
    hide TlvAt, Encode, SpecOf, Content;
    var e := SpecBer(ts).value;
    SpecNoWideTags(ts);
    ElementReads(e, data, off);
    SpecContentReads(ts, depth);
  }

  lemma {:induction false} SpecContentReads(ts: TypeSpec, depth: nat)
    requires Canonical(ts) && depth + SpecHeight(ts) <= MAX_VALUE_DEPTH
    requires SpecBer(ts).Some? && Size(SpecBer(ts).value) < 0x1_0000_0000
    ensures var e := SpecBer(ts).value; SpecOf(e.tag, Content(e), depth) == Ok(ts)
    decreases ts, 0
  {
    hide LeafBer, LeafOf, Encode, ArraySpecOf, ComponentsFrom, ExpectAt, OptionalAt;
    var e := SpecBer(ts).value;
    match ts.kind
    case Some(TArray) =>
      var el := ts.element.value;
      CanonicalEncodes(el);
      ArrayContentReads(ts.elements, el, depth);
    case Some(TStructure) =>
      var comps := Cons(ContextConstructed(1), ComponentsBer(ts.components));
      OneElement(comps);
      ComponentsNoWideTags(ts.components);
      ElementExpects(comps, Encode(comps), 0, ContextPrimitive(0));
      SizeAllExact(ComponentsBer(ts.components));
      ComponentsRead(ts.components, Content(comps), 0, depth);
    case Some(k) => LeafReads(k, ts.size);
  }

  lemma {:induction false} CanonicalEncodes(ts: TypeSpec)
    requires Canonical(ts)
    ensures SpecBer(ts).Some?
  {
  }

  /** A holder element's content reads as the one specification inside it. */
  lemma {:induction false} HolderReads(ts: TypeSpec, holder: Element, depth: nat)
    requires Canonical(ts) && depth + SpecHeight(ts) <= MAX_VALUE_DEPTH && SpecBer(ts).Some?
    requires holder.Constructed? && holder.children == [SpecBer(ts).value] && Size(holder) < 0x1_0000_0000
    ensures WideTags(holder) == if WideTag(holder.tag) then 1 else 0
    ensures var r := SpecFrom(Content(holder), 0, depth); r.Ok? && r.value.0 == ts
    decreases ts, 2
  {
    hide SpecFrom, Encode, SpecBer;
    var e := SpecBer(ts).value;
    OneElement(e);
    SpecNoWideTags(ts);
    SpecReads(ts, Encode(e), 0, depth);
  }

  lemma {:induction false} ArrayContentReads(n: u64, el: TypeSpec, depth: nat)
    requires n <= MAX_ARRAY_ELEMENTS && Canonical(el) && SpecBer(el).Some?
    requires depth + 1 + SpecHeight(el) <= MAX_VALUE_DEPTH
    requires var count := UintElem(ContextPrimitive(1), n);
             var holder := Cons(ContextConstructed(2), [SpecBer(el).value]);
             SizeAll([count, holder]) < 0x1_0000_0000
    ensures var count := UintElem(ContextPrimitive(1), n);
            var holder := Cons(ContextConstructed(2), [SpecBer(el).value]);
            ArraySpecOf(EncodeAll([count, holder]), depth) == Ok(ArrayOf(n, el))
    decreases el, 3
  {
    hide SpecFrom, SpecBer, Encode, ExpectAt, OptionalAt, UintOf, UintOctets, Canonical, SpecHeight;
    var count := UintElem(ContextPrimitive(1), n);
    var holder := Cons(ContextConstructed(2), [SpecBer(el).value]);
    TwoElements(count, holder);
    HolderReads(el, holder, depth + 1);
    UintRoundTrip(n);
    var c := Encode(count) + Encode(holder);
    EmbeddedConcat(Encode(count), Encode(holder));
    ElementExpects(count, c, 0, ContextPrimitive(0));
    ElementExpects(holder, c, |Encode(count)|, ContextPrimitive(0));
  }

  lemma {:induction false} ComponentReads(x: Component, depth: nat)
    requires Canonical(x.spec) && depth + 1 + SpecHeight(x.spec) <= MAX_VALUE_DEPTH
    requires Size(ComponentBer(x)) < 0x1_0000_0000
    ensures ComponentOf(Content(ComponentBer(x)), depth) == Ok(x)
    decreases x, 2
  {
    hide SpecFrom, SpecBer, Encode, ExpectAt, OptionalAt, Canonical, Embedded;
    CanonicalEncodes(x.spec);
    var name, holder := Primitive(ContextPrimitive(0), x.name), SpecHolder(x.spec);
    TwoElements(name, holder);
    var c := Encode(name) + Encode(holder);
    assert Content(ComponentBer(x)) == c;
    assert Size(ComponentBer(x)) >= Size(name) + Size(holder);
    HolderReads(x.spec, holder, depth + 1);
    EmbeddedConcat(Encode(name), Encode(holder));
    ElementExpects(name, c, 0, ContextPrimitive(0));
    ElementExpects(holder, c, |Encode(name)|, ContextPrimitive(0));
  }

  lemma {:induction false} ComponentsRead(cs: seq<Component>, c: octets, off: nat, depth: nat)
    requires CanonicalAll(cs) && depth + 1 + ComponentsHeight(cs) <= MAX_VALUE_DEPTH
    requires var es := ComponentsBer(cs);
             SizeAll(es) < 0x1_0000_0000 && Embedded(EncodeAll(es), c, off) && off + |EncodeAll(es)| == |c|
    ensures ComponentsFrom(c, off, depth) == Ok(cs)
    decreases cs, 0
  {
    hide ComponentOf, Encode, ExpectAt, SpecBer;
    if cs != [] {
      var e, es := ComponentBer(cs[0]), ComponentsBer(cs[1..]);
      assert ComponentsBer(cs) == [e] + es;
      assert ComponentsBer(cs)[1..] == es;
      EmbeddedParts(Encode(e), EncodeAll(es), c, off);
      ComponentNoWideTags(cs[0]);
      ElementExpects(e, c, off, TAG_SEQUENCE);
      ComponentReads(cs[0], depth);
      ComponentsRead(cs[1..], c, off + |Encode(e)|, depth);
      assert [cs[0]] + cs[1..] == cs;
    }
  }

  /** Whatever decodes is canonical and within the nesting limit. */
  lemma {:induction false} DecodedCanonical(data: octets, off: nat, depth: nat)
    requires off <= |data| && SpecFrom(data, off, depth).Ok?
    ensures var ts := SpecFrom(data, off, depth).value.0;
            Canonical(ts) && depth + SpecHeight(ts) <= MAX_VALUE_DEPTH
    decreases |data| - off, 0
  {
    hide TlvAt, LeafOf, ExpectAt, OptionalAt;
    var e := TlvAt(data, off, 0).value;
    assert SpecOf(e.tag, e.content, depth).Ok?;
    if e.tag.number == DATA_ARRAY {
      assert ArraySpecOf(e.content, depth).Ok?;
      var at := OptionalAt(e.content, 0, ContextPrimitive(0)).next;
      var at2 := ExpectAt(e.content, at, ContextPrimitive(1)).next;
      DecodedCanonical(ExpectAt(e.content, at2, ContextConstructed(2)).value, 0, depth + 1);
    } else if e.tag.number == DATA_STRUCTURE {
      var at := OptionalAt(e.content, 0, ContextPrimitive(0)).next;
      ComponentsCanonical(ExpectAt(e.content, at, ContextConstructed(1)).value, 0, depth);
    } else {
      LeafCanonical(e.tag.number, e.content);
    }
  }

  lemma LeafCanonical(number: u32, c: octets)
    requires LeafOf(number, c).Ok?
    ensures var ts := LeafOf(number, c).value; Canonical(ts) && SpecHeight(ts) == 0
  {
    hide IntOf, UintOf, ExpectAt;
  }

  lemma {:induction false} ComponentsCanonical(c: octets, off: nat, depth: nat)
    requires off <= |c| && depth <= MAX_VALUE_DEPTH && ComponentsFrom(c, off, depth).Ok?
    ensures var cs := ComponentsFrom(c, off, depth).value;
            CanonicalAll(cs) && depth + 1 + ComponentsHeight(cs) <= MAX_VALUE_DEPTH
    decreases |c| - off, 2
  {
    hide SpecFrom, ExpectAt, OptionalAt;
    if off < |c| {
      var r := ExpectAt(c, off, TAG_SEQUENCE);
      var s := r.value;
      var at := OptionalAt(s, 0, ContextPrimitive(0)).next;
      var sc := ExpectAt(s, at, ContextConstructed(1)).value;
      DecodedCanonical(sc, 0, depth + 1);
      ComponentsCanonical(c, r.next, depth);
      var cs, rest := ComponentsFrom(c, off, depth).value, ComponentsFrom(c, r.next, depth).value;
      assert cs[1..] == rest;
    }
  }

  lemma {:induction false} CanonicalLeavesNone(ts: TypeSpec)
    requires Canonical(ts)
    ensures !LeavesOut(ts)
    decreases ts
  {
    if ts.kind == Some(TArray) { CanonicalLeavesNone(ts.element.value); }
    if ts.kind == Some(TStructure) { CanonicalLeavesNoneOf(ts.components); }
  }

  lemma {:induction false} CanonicalLeavesNoneOf(cs: seq<Component>)
    requires CanonicalAll(cs)
    ensures !AnyLeavesOut(cs)
    decreases cs
  {
    if cs != [] {
      CanonicalLeavesNone(cs[0].spec);
      CanonicalLeavesNoneOf(cs[1..]);
    }
  }

  /** A specification round-trips exactly when it is canonical and within the
      decoder's limits. */
  lemma SpecRoundTrip(ts: TypeSpec)
    requires SpecBer(ts).Some? && Size(SpecBer(ts).value) < 0x1_0000_0000
    ensures var d := Encode(SpecBer(ts).value);
            && (DecodeSpec(d, 0) == Ok((ts, |d|)) <==>
                Canonical(ts) && SpecHeight(ts) <= MAX_VALUE_DEPTH && ValueCount(ts) <= MAX_DEFAULT_VALUES)
  {
    hide SpecFrom, Encode, SpecBer, ValueCount;
    var d := Encode(SpecBer(ts).value);
    if Canonical(ts) && SpecHeight(ts) <= MAX_VALUE_DEPTH { SpecReads(ts, d, 0, 0); }
    if SpecFrom(d, 0, 0).Ok? { DecodedCanonical(d, 0, 0); }
  }

  /** Materialising an accepted specification builds exactly the number of
      values it was costed at, 2^20 at most. */
  lemma AcceptedSpecBounded(data: octets, off: nat)
    requires off <= |data| && DecodeSpec(data, off).Ok?
    ensures var ts := DecodeSpec(data, off).value.0;
            Census(DefaultValue(ts)) == ValueCount(ts) <= MAX_DEFAULT_VALUES
  {
    hide SpecFrom, ValueCount;
    var ts := DecodeSpec(data, off).value.0;
    DecodedCanonical(data, off, 0);
    CanonicalLeavesNone(ts);
    CountExact(ts);
  }

  // ---- The decoder as the source runs it, over cursors.

  method DecodeTypeSpecAt(dec: Decoder, depth: nat) returns (r: Result<TypeSpec, Fault>)
    requires dec.Valid()
    modifies dec
    ensures dec.Valid() && old(dec.off) <= dec.off
    ensures match SpecFrom(dec.data, old(dec.off), depth)
            case Ok((ts, next)) => r == Ok(ts) && dec.off == next
            case Err(f) => r == Err(f)
    decreases |dec.data| - dec.off, 0
  {
    hide TlvAt, LeafOf;
    if depth > MAX_VALUE_DEPTH {
      return Err(Protocol);
    }
    var e := dec.ReadTlvAt(0);
    if e.Err? {
      return Err(Asn1(e.error));
    }
    var tag, content := e.value.tag, e.value.content;
    if tag.class_ != ContextSpecific {
      return Err(Protocol);
    }
    if tag.number == DATA_ARRAY {
      r := DecodeArraySpec(content, depth);
    } else if tag.number == DATA_STRUCTURE {
      r := DecodeStructureSpec(content, depth);
    } else {
      r := LeafOf(tag.number, content);
    }
  }

  method DecodeArraySpec(content: octets, depth: nat) returns (r: Result<TypeSpec, Fault>)
    ensures r == ArraySpecOf(content, depth)
    decreases |content|, 1
  {
    hide SpecFrom, ExpectAt, OptionalAt;
    var inner := new Decoder(content);
    var packed := inner.Optional(ContextPrimitive(0));
    if packed.Err? { return Err(Asn1(packed.error)); }
    var nc := inner.Expect(ContextPrimitive(1));
    if nc.Err? { return Err(Asn1(nc.error)); }
    var declared := DecodeUint(nc.value);
    if declared.Err? { return Err(Asn1(declared.error)); }
    if declared.value > MAX_ARRAY_ELEMENTS { return Err(Protocol); }
    var ec := inner.Expect(ContextConstructed(2));
    if ec.Err? { return Err(Asn1(ec.error)); }
    var ed := new Decoder(ec.value);
    var element := DecodeTypeSpecAt(ed, depth + 1);
    if element.Err? { return Err(element.error); }
    return Ok(ArrayOf(declared.value, element.value));
  }

  ghost function OntoComponents(done: seq<Component>, r: Result<seq<Component>, Fault>): Result<seq<Component>, Fault>
  {
    match r
    case Err(f) => Err(f)
    case Ok(cs) => Ok(done + cs)
  }

  method DecodeStructureSpec(content: octets, depth: nat) returns (r: Result<TypeSpec, Fault>)
    ensures r == SpecOf(ContextConstructed(DATA_STRUCTURE), content, depth)
    decreases |content|, 3
  {
    hide ComponentOf, ExpectAt, OptionalAt;
    var inner := new Decoder(content);
    var packed := inner.Optional(ContextPrimitive(0));
    if packed.Err? { return Err(Asn1(packed.error)); }
    var list := inner.Expect(ContextConstructed(1));
    if list.Err? { return Err(Asn1(list.error)); }
    var comps := new Decoder(list.value);
    var components: seq<Component> := [];
    ghost var all := ComponentsFrom(list.value, 0, depth);
    assert OntoComponents([], all) == all by { if all.Ok? { assert [] + all.value == all.value; } }
    while comps.More()
      invariant comps.Valid() && comps.data == list.value && fresh(comps)
      invariant all == OntoComponents(components, ComponentsFrom(list.value, comps.off, depth))
      decreases |list.value| - comps.off
    {
      var s := comps.Expect(TAG_SEQUENCE);
      if s.Err? { return Err(Asn1(s.error)); }
      var x := DecodeComponent(s.value, depth);
      if x.Err? { return Err(x.error); }
      ghost var rest := ComponentsFrom(list.value, comps.off, depth);
      if rest.Ok? { assert components + ([x.value] + rest.value) == components + [x.value] + rest.value; }
      components := components + [x.value];
    }
    assert components + [] == components;
    return Ok(StructureOf(components));
  }

  method DecodeComponent(s: octets, depth: nat) returns (r: Result<Component, Fault>)
    ensures r == ComponentOf(s, depth)
    decreases |s|, 1
  {
    hide SpecFrom, ExpectAt, OptionalAt;
    var cd := new Decoder(s);
    var name := cd.Optional(ContextPrimitive(0));
    if name.Err? { return Err(Asn1(name.error)); }
    var sc := cd.Expect(ContextConstructed(1));
    if sc.Err? { return Err(Asn1(sc.error)); }
    var sd := new Decoder(sc.value);
    var spec := DecodeTypeSpecAt(sd, depth + 1);
    if spec.Err? { return Err(spec.error); }
    return Ok(Component(if name.value.Some? then name.value.value else [], spec.value));
  }
}
