/** Alternate access: selecting part of a variable (src/mms/altaccess.rs). */
module AltAccess {
  import opened Octets
  import opened Ber
  import opened Decoding
  import opened Elements
  import opened Primitives
  import opened ValueCodec
  import opened TypeSpecs

  /** A structure component by name, or an array element by index. */
  datatype AccessStep = ByName(name: octets) | ByIndex(index: u64)

  const DOLLAR: byte := 0x24

  /** The parts of a name between `$` signs; one part when there is none. */
  function Split(s: octets): (parts: seq<octets>)
    ensures parts != []
  {
    if s == [] then [[]]
    else
      var rest := Split(s[1..]);
      if s[0] == DOLLAR then [[]] + rest else [[s[0]] + rest[0]] + rest[1..]
  }

  lemma {:induction false} SplitWhole(s: octets)
    ensures |Split(s)| == 1 <==> DOLLAR !in s
    ensures DOLLAR !in s ==> Split(s) == [s]
  {
    if s != [] {
      SplitWhole(s[1..]);
      assert s == [s[0]] + s[1..];
    }
  }

  function Names(parts: seq<octets>): (steps: seq<AccessStep>)
    ensures |steps| == |parts|
  {
    if parts == [] then [] else [ByName(parts[0])] + Names(parts[1..])
  }

  // ---- Encoding.

  /** The last step: a selectAccess. */
  function LastSelection(s: AccessStep): (e: Element)
    ensures !e.Verbatim? && WideTags(e) == 0
  {
    match s
    case ByName(n) => Primitive(ContextPrimitive(1), n)
    case ByIndex(i) => UintElem(ContextPrimitive(2), i)
  }

  /** An earlier step: the selection inside a selectAlternateAccess. */
  function InnerSelection(s: AccessStep): (e: Element)
    ensures !e.Verbatim? && WideTags(e) == 0
  {
    match s
    case ByName(n) => Primitive(ContextPrimitive(0), n)
    case ByIndex(i) => UintElem(ContextPrimitive(1), i)
  }

  function Build(steps: seq<AccessStep>): (e: Element)
    requires steps != []
    ensures !e.Verbatim?
  {
    if |steps| == 1 then LastSelection(steps[0])
    else Cons(ContextConstructed(0), [InnerSelection(steps[0]), Cons(TAG_SEQUENCE, [Build(steps[1..])])])
  }

  function AlternateAccessElement(steps: seq<AccessStep>): octets
  {
    if steps == [] then [] else Encode(Build(steps))
  }

  // ---- Decoding.

  /** The CHOICE numbers sit one higher in selectAccess, which `offset` absorbs. */
  function Selection(num: u32, constructed: bool, c: octets, offset: u32): Result<seq<AccessStep>, Fault>
  {
    if num < offset then Err(Protocol)
    else if num - offset == 0 then if constructed then Err(Protocol) else Ok(Names(Split(c)))
    else if num - offset == 1 then
      match UintOf(c)
      case Err(e) => Err(Asn1(e))
      case Ok(i) => Ok([ByIndex(i)])
    else Err(Protocol)
  }

  function AccessFrom(c: octets): (r: Result<seq<AccessStep>, Fault>)
    decreases |c|, 1
  {
    if c == [] then Ok([])
    else
      match TlvAt(c, 0, 0)
      case Bad(e) => Err(Asn1(e))
      case Got(e, next) =>
        match StepsOf(e.tag, e.content)
        case Err(f) => Err(f)
        case Ok(steps) =>
          if next >= |c| then Ok(steps)
          else
            match TlvAt(c, next, 0)
            case Bad(x) => Err(Asn1(x))
            case Got(_, _) => Err(Protocol)
  }

  function StepsOf(tag: Tag, c: octets): (r: Result<seq<AccessStep>, Fault>)
    decreases |c|, 2
  {
    if tag == ContextConstructed(0) then
      match TlvAt(c, 0, 0)
      case Bad(e) => Err(Asn1(e))
      case Got(s, at) =>
        match Selection(s.tag.number, s.tag.constructed, s.content, 0)
        case Err(f) => Err(f)
        case Ok(first) =>
          match ExpectAt(c, at, TAG_SEQUENCE)
          case Bad(e) => Err(Asn1(e))
          case Got(rest, _) =>
            match AccessFrom(rest)
            case Err(f) => Err(f)
            case Ok(more) => Ok(first + more)
    else if tag.class_ == ContextSpecific && 1 <= tag.number <= 4 then Selection(tag.number, tag.constructed, c, 1)
    else Err(Protocol)
  }

  method ParseAlternateAccess(content: octets) returns (r: Result<seq<AccessStep>, Fault>)
    ensures r == AccessFrom(content)
    decreases |content|
  {
    hide TlvAt, ExpectAt, Selection;
    var dec := new Decoder(content);
    var steps: seq<AccessStep> := [];
    var n := 0;
    while dec.More()
      invariant dec.Valid() && dec.data == content && fresh(dec)
      invariant n == 0 ==> dec.off == 0 && steps == []
      invariant n == 1 ==> content != [] && TlvAt(content, 0, 0).Got? && dec.off == TlvAt(content, 0, 0).next
      invariant n == 1 ==> var e := TlvAt(content, 0, 0).value; StepsOf(e.tag, e.content) == Ok(steps)
      invariant 0 <= n <= 1
      decreases |content| - dec.off
    {
      var e := dec.ReadTlvAt(0);
      if e.Err? { return Err(Asn1(e.error)); }
      n := n + 1;
      if n > 1 { return Err(Protocol); }
      var tag, c := e.value.tag, e.value.content;
      if tag == ContextConstructed(0) {
        var sd := new Decoder(c);
        var s := sd.ReadTlvAt(0);
        if s.Err? { return Err(Asn1(s.error)); }
        var first := Selection(s.value.tag.number, s.value.tag.constructed, s.value.content, 0);
        if first.Err? { return Err(first.error); }
        steps := first.value;
        var rest := sd.Expect(TAG_SEQUENCE);
        if rest.Err? { return Err(Asn1(rest.error)); }
        var more := ParseAlternateAccess(rest.value);
        if more.Err? { return Err(more.error); }
        steps := steps + more.value;
      } else if tag.class_ == ContextSpecific && 1 <= tag.number <= 4 {
        var last := Selection(tag.number, tag.constructed, c, 1);
        if last.Err? { return Err(last.error); }
        steps := last.value;
      } else {
        return Err(Protocol);
      }
    }
    return Ok(steps);
  }

  // ---- Round trip.

  /** A name written with `$` reads back as its parts. */
  function Expand(steps: seq<AccessStep>): (r: seq<AccessStep>)
    ensures |r| >= |steps|
  {
    if steps == [] then []
    else ExpandStep(steps[0]) + Expand(steps[1..])
  }

  function ExpandStep(s: AccessStep): (r: seq<AccessStep>)
    ensures |r| >= 1
  {
    if s.ByName? then Names(Split(s.name)) else [s]
  }

  predicate NoDollar(steps: seq<AccessStep>)
  {
    forall i :: 0 <= i < |steps| && steps[i].ByName? ==> DOLLAR !in steps[i].name
  }

  lemma {:induction false} ExpandExact(steps: seq<AccessStep>)
    ensures Expand(steps) == steps <==> NoDollar(steps)
    ensures |Expand(steps)| == |steps| <==> NoDollar(steps)
  {
    if steps != [] {
      ExpandExact(steps[1..]);
      assert steps == [steps[0]] + steps[1..];
      assert NoDollar(steps) <==> NoDollar(steps[1..]) && (steps[0].ByName? ==> DOLLAR !in steps[0].name);
      if steps[0].ByName? {
        SplitWhole(steps[0].name);
        if DOLLAR !in steps[0].name { assert Names(Split(steps[0].name)) == [steps[0]]; }
      }
    }
  }

  lemma {:induction false} BuildNoWideTags(steps: seq<AccessStep>)
    requires steps != []
    ensures WideTags(Build(steps)) == 0
  {
    if |steps| > 1 {
      BuildNoWideTags(steps[1..]);
      var tail := Cons(TAG_SEQUENCE, [Build(steps[1..])]);
      OneElement(Build(steps[1..]));
      TwoElements(InnerSelection(steps[0]), tail);
    }
  }

  lemma SelectionReads(s: AccessStep)
    ensures var e := LastSelection(s);
            Selection(e.tag.number, e.tag.constructed, Content(e), 1) == Ok(ExpandStep(s))
    ensures var e := InnerSelection(s);
            Selection(e.tag.number, e.tag.constructed, Content(e), 0) == Ok(ExpandStep(s))
  {
    hide UintOf, UintOctets;
    if s.ByIndex? { UintRoundTrip(s.index); }
  }

  lemma {:induction false} BuildReads(steps: seq<AccessStep>)
    requires steps != [] && Size(Build(steps)) < 0x1_0000_0000
    ensures AccessFrom(Encode(Build(steps))) == Ok(Expand(steps))
    decreases |steps|, 1
  {
    hide TlvAt, Encode, StepsOf, Build, Content, Expand;
    var e := Build(steps);
    BuildNoWideTags(steps);
    ElementReads(e, Encode(e), 0);
    ElementExpects(e, Encode(e), 0, e.tag);
    BuildContentReads(steps);
  }

  lemma {:induction false} BuildContentReads(steps: seq<AccessStep>)
    requires steps != [] && Size(Build(steps)) < 0x1_0000_0000
    ensures var e := Build(steps); StepsOf(e.tag, Content(e)) == Ok(Expand(steps))
    decreases |steps|, 0
  {
    hide TlvAt, Encode, Selection, AccessFrom, ExpectAt;
    SelectionReads(steps[0]);
    if |steps| == 1 {
      assert ExpandStep(steps[0]) + [] == ExpandStep(steps[0]);
    } else {
      var sel, inner := InnerSelection(steps[0]), Build(steps[1..]);
      var tail := Cons(TAG_SEQUENCE, [inner]);
      TwoElements(sel, tail);
      OneElement(inner);
      BuildReads(steps[1..]);
      BuildNoWideTags(steps[1..]);
      var c := Encode(sel) + Encode(tail);
      EmbeddedConcat(Encode(sel), Encode(tail));
      ElementReads(sel, c, 0);
      ElementExpects(tail, c, |Encode(sel)|, TAG_SEQUENCE);
    }
  }

  /** Any step list reads back with its names taken apart at `$`, so it reads
      back whole exactly when no name holds one. */
  lemma AlternateAccessRoundTrip(steps: seq<AccessStep>)
    requires steps != [] ==> Size(Build(steps)) < 0x1_0000_0000
    ensures AccessFrom(AlternateAccessElement(steps)) == Ok(Expand(steps))
    ensures AccessFrom(AlternateAccessElement(steps)) == Ok(steps) <==> NoDollar(steps)
  {
    hide AccessFrom, Build;
    ExpandExact(steps);
    if steps != [] {
      BuildReads(steps);
    } else {
      assert AccessFrom([]) == Ok([]) by { EmptyAccess(); }
    }
  }

  lemma EmptyAccess()
    ensures AccessFrom([]) == Ok([])
  {
  }

  // ---- Resolving steps against a type.

  function Position(cs: seq<Component>, name: octets): (i: nat)
    ensures i <= |cs|
    ensures i < |cs| ==> cs[i].name == name
    ensures forall k :: 0 <= k < i ==> cs[k].name != name
  {
    if cs == [] || cs[0].name == name then 0 else 1 + Position(cs[1..], name)
  }

  /** The child a step selects: its index and type. */
  function Child(spec: TypeSpec, s: AccessStep): Result<(nat, TypeSpec), Fault>
  {
    match s
    case ByName(name) =>
      if spec.kind != Some(TStructure) then Err(Protocol)
      else
        var i := Position(spec.components, name);
        if i == |spec.components| then Err(Protocol) else Ok((i, spec.components[i].spec))
    case ByIndex(i) =>
      if spec.kind != Some(TArray) then Err(Protocol)
      else if spec.elements > 0 && i >= spec.elements then Err(Protocol)
      else if spec.element.None? then Err(Protocol)
      else Ok((i, spec.element.value))
  }

  function PathOf(spec: TypeSpec, steps: seq<AccessStep>): Result<(seq<nat>, TypeSpec), Fault>
  {
    if steps == [] then Ok(([], spec))
    else
      match Child(spec, steps[0])
      case Err(f) => Err(f)
      case Ok((i, sub)) =>
        match PathOf(sub, steps[1..])
        case Err(f) => Err(f)
        case Ok((path, last)) => Ok(([i] + path, last))
  }

  ghost function Led(path: seq<nat>, r: Result<(seq<nat>, TypeSpec), Fault>): Result<(seq<nat>, TypeSpec), Fault>
  {
    match r
    case Err(f) => Err(f)
    case Ok((more, last)) => Ok((path + more, last))
  }

  method AccessPath(spec: TypeSpec, steps: seq<AccessStep>) returns (r: Result<(seq<nat>, TypeSpec), Fault>)
    ensures r == PathOf(spec, steps)
  {
    hide Child;
    var cur, path := spec, [];
    assert Led([], PathOf(spec, steps)) == PathOf(spec, steps) by {
      if PathOf(spec, steps).Ok? { assert [] + PathOf(spec, steps).value.0 == PathOf(spec, steps).value.0; }
    }
    for k := 0 to |steps|
      invariant PathOf(spec, steps) == Led(path, PathOf(cur, steps[k..]))
    {
      var c := Child(cur, steps[k]);
      if c.Err? { return Err(c.error); }
      assert steps[k..][1..] == steps[k + 1..];
      ghost var rest := PathOf(c.value.1, steps[k + 1..]);
      if rest.Ok? { assert path + ([c.value.0] + rest.value.0) == path + [c.value.0] + rest.value.0; }
      path := path + [c.value.0];
      cur := c.value.1;
    }
    assert path + [] == path;
    return Ok((path, cur));
  }

  /** Following child indices into a value. */
  function Walk(v: Value, path: seq<nat>): Option<Value>
  {
    if path == [] then Some(v)
    else if (v.Array? || v.Structure?) && path[0] < |v.items| then Walk(v.items[path[0]], path[1..])
    else None
  }

  /** No array the steps index is declared with zero elements. */
  predicate IndexesPositive(spec: TypeSpec, steps: seq<AccessStep>)
  {
    steps == [] ||
    (Child(spec, steps[0]).Ok? ==>
       (steps[0].ByIndex? ==> spec.elements > 0) && IndexesPositive(Child(spec, steps[0]).value.1, steps[1..]))
  }

  lemma {:induction false} DefaultValuesAt(cs: seq<Component>, i: nat)
    requires i < |cs|
    ensures DefaultValues(cs)[i] == DefaultValue(cs[i].spec)
  {
    if i > 0 { DefaultValuesAt(cs[1..], i - 1); }
  }

  /** The default value, followed along a resolved path, is the default value
      of the type found there, exactly when no empty array is indexed. */
  lemma {:induction false} PathSelectsDefault(spec: TypeSpec, steps: seq<AccessStep>)
    requires PathOf(spec, steps).Ok?
    ensures var (path, sub) := PathOf(spec, steps).value;
            Walk(DefaultValue(spec), path) == Some(DefaultValue(sub)) <==> IndexesPositive(spec, steps)
    decreases |steps|
  {
    if steps != [] {
      var (i, sub) := Child(spec, steps[0]).value;
      PathSelectsDefault(sub, steps[1..]);
      var path := PathOf(spec, steps).value.0;
      assert path[1..] == PathOf(sub, steps[1..]).value.0;
      if steps[0].ByName? { DefaultValuesAt(spec.components, i); }
    }
  }

  /** An array of no booleans: its first element is found in the type and not in
      the default value. */
  lemma EmptyArrayExample()
    ensures var spec, steps := ArrayOf(0, Scalar(TBoolean)), [ByIndex(0)];
            PathOf(spec, steps) == Ok(([0], Scalar(TBoolean))) && Walk(DefaultValue(spec), [0]) == None
  {
    var spec, steps := ArrayOf(0, Scalar(TBoolean)), [ByIndex(0)];
    assert Child(spec, steps[0]) == Ok((0, Scalar(TBoolean)));
    assert steps[1..] == [] && PathOf(Scalar(TBoolean), steps[1..]) == Ok(([], Scalar(TBoolean)));
    var none: seq<nat> := [];
    assert [0] + none == [0];
  }
}
