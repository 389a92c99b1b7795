/** Element trees and their encoder (src/asn1/element.rs). */
module Elements {
  import opened Octets
  import opened Ber
  import opened Decoding

  datatype Element =
    | Primitive(tag: Tag, value: octets)
    | Constructed(tag: Tag, children: seq<Element>)
    | Raw(tag: Tag, content: octets)
    | Verbatim(tlvs: octets)

  /** `cons`: a constructed element; the constructed bit is forced. */
  function Cons(tag: Tag, children: seq<Element>): (e: Element)
    ensures e.Constructed? && e.tag.constructed
  {
    Constructed(tag.(constructed := true), children)
  }

  // ---- Sizes.

  function ContentSize(e: Element): nat
    decreases e, 0
  {
    match e
    case Primitive(_, value) => |value|
    case Constructed(_, children) => SizeAll(children)
    case Raw(_, content) => |content|
    case Verbatim(v) => |v|
  }

  function Size(e: Element): nat
    decreases e, 1
  {
    if e.Verbatim? then |e.tlvs| else TlvSize(e.tag, ContentSize(e))
  }

  function SizeAll(es: seq<Element>): nat
    decreases es, 0
  {
    if es == [] then 0 else Size(es[0]) + SizeAll(es[1..])
  }

  // ---- Encoding.

  /** A constructed element's length octets come from the children's sizes, not
      from their octets. */
  function Encode(e: Element): (s: octets)
  {
    match e
    case Verbatim(v) => v
    case Primitive(tag, value) => TlvOctets(tag, value)
    case Raw(tag, content) => TlvOctets(tag, content)
    case Constructed(tag, children) =>
      TagOctets(tag) + LengthOctets(SizeAll(children)) + EncodeAll(children)
  }

  function EncodeAll(es: seq<Element>): (s: octets)
  {
    if es == [] then [] else Encode(es[0]) + EncodeAll(es[1..])
  }

  method AppendElement(e: Element, dst: octets) returns (out: octets)
    ensures out == dst + Encode(e)
    decreases e, 1
  {
    hide TagOctets, LengthOctets;
    if e.Verbatim? {
      return dst + e.tlvs;
    }
    out := AppendTag(dst, e.tag);
    match e {
      case Primitive(tag, value) =>
        out := out + LengthOctets(|value|) + value;
        Assoc(dst, TagOctets(tag), LengthOctets(|value|), value);
      case Raw(tag, content) =>
        out := out + LengthOctets(|content|) + content;
        Assoc(dst, TagOctets(tag), LengthOctets(|content|), content);
      case Constructed(tag, children) =>
        var n := SumSizes(children);
        out := out + LengthOctets(n);
        out := AppendChildren(children, out);
        Assoc(dst, TagOctets(tag), LengthOctets(n), EncodeAll(children));
    }
  }

  method AppendChildren(es: seq<Element>, dst: octets) returns (out: octets)
    ensures out == dst + EncodeAll(es)
    decreases es, 0
  {
    out := dst;
    var i := 0;
    while i < |es|
      invariant i <= |es|
      invariant out == dst + EncodeAll(es[..i])
    {
      out := AppendElement(es[i], out);
      EncodeAllNext(es, i);
      i := i + 1;
    }
    assert es[..i] == es;
  }

  lemma EncodeAllNext(es: seq<Element>, i: nat)
    requires i < |es|
    ensures EncodeAll(es[..i + 1]) == EncodeAll(es[..i]) + Encode(es[i])
  {
    assert es[..i + 1] == es[..i] + [es[i]];
    SizeAllConcat(es[..i], [es[i]]);
    assert EncodeAll([es[i]]) == Encode(es[i]);
  }

  method SumSizes(es: seq<Element>) returns (n: nat)
    ensures n == SizeAll(es)
  {
    n := 0;
    var i := 0;
    while i < |es|
      invariant i <= |es|
      invariant n + SizeAll(es[i..]) == SizeAll(es)
    {
      assert es[i..][1..] == es[i + 1..];
      n := n + Size(es[i]);
      i := i + 1;
    }
  }

  // ---- The size is the length, short of an octet per wide tag.

  function WideTags(e: Element): nat
  {
    match e
    case Verbatim(_) => 0
    case Constructed(tag, children) => (if WideTag(tag) then 1 else 0) + WideTagsAll(children)
    case _ => if WideTag(e.tag) then 1 else 0
  }

  function WideTagsAll(es: seq<Element>): nat
  {
    if es == [] then 0 else WideTags(es[0]) + WideTagsAll(es[1..])
  }

  /** The encoding is longer than `Size` by one octet for each tag numbered
      2^28 or above, so the two agree exactly when there is none. */
  lemma {:induction false} SizeExact(e: Element)
    ensures |Encode(e)| == Size(e) + WideTags(e)
    decreases e
  {
    if !e.Verbatim? {
      TagSizeExact(e.tag);
      LengthSizeExact(ContentSize(e));
      if e.Constructed? { SizeAllExact(e.children); }
    }
  }

  /** An empty element of tag number 2^28 is one octet longer than its size. */
  lemma WideTagExample()
    ensures var e := Primitive(Tag(Universal, false, 0x1000_0000), []); |Encode(e)| == Size(e) + 1
  {
    var e := Primitive(Tag(Universal, false, 0x1000_0000), []);
    SizeExact(e);
    TagSizeExact(e.tag);
  }

  lemma {:induction false} SizeAllExact(es: seq<Element>)
    ensures |EncodeAll(es)| == SizeAll(es) + WideTagsAll(es)
    decreases es
  {
    if es != [] {
      SizeExact(es[0]);
      SizeAllExact(es[1..]);
    }
  }

  lemma {:induction false} SizeAllConcat(xs: seq<Element>, ys: seq<Element>)
    ensures SizeAll(xs + ys) == SizeAll(xs) + SizeAll(ys)
    ensures WideTagsAll(xs + ys) == WideTagsAll(xs) + WideTagsAll(ys)
    ensures EncodeAll(xs + ys) == EncodeAll(xs) + EncodeAll(ys)
    decreases xs
  {
    hide Size, Encode, WideTags;
    if xs == [] {
      assert xs + ys == ys;
    } else {
      SizeAllConcat(xs[1..], ys);
      assert (xs + ys)[1..] == xs[1..] + ys;
    }
  }

  // ---- Reading an encoded element back.

  /** The content octets of an element. */
  function Content(e: Element): octets
  {
    match e
    case Primitive(_, value) => value
    case Constructed(_, children) => EncodeAll(children)
    case Raw(_, content) => content
    case Verbatim(v) => v
  }

  lemma EncodeIsTlv(e: Element)
    requires !e.Verbatim? && WideTags(e) == 0
    ensures |Content(e)| == ContentSize(e)
    ensures Encode(e) == TlvOctets(e.tag, Content(e))
  {
    if e.Constructed? { SizeAllExact(e.children); }
  }

  /** `e` reads back at `off`: its tag, its content, its children in order
      inside that content, and no octet besides its own. A verbatim part reads
      as the octets it splices in. */
  ghost predicate ReadsBack(e: Element, data: octets, off: nat)
    decreases e
  {
    && off + |Encode(e)| <= |data|
    && (if e.Verbatim? then data[off..off + |e.tlvs|] == e.tlvs
        else
          && TlvAt(data, off, 0) == Got(Tlv(e.tag, Content(e)), off + |Encode(e)|)
          && (e.Constructed? ==> AllReadBack(e.children, Content(e), 0)))
  }

  ghost predicate AllReadBack(es: seq<Element>, data: octets, off: nat)
    decreases es
  {
    if es == [] then off == |data|
    else ReadsBack(es[0], data, off) && AllReadBack(es[1..], data, off + |Encode(es[0])|)
  }

  /** Every element tree with tag numbers below 2^28 and lengths below 2^32
      reads back wherever its encoding stands. */
  lemma {:induction false} EncodedReadsBack(e: Element, data: octets, off: nat)
    requires WideTags(e) == 0 && ContentSize(e) < 0x1_0000_0000 && Embedded(Encode(e), data, off)
    ensures ReadsBack(e, data, off)
    decreases e
  {
    hide TlvAt;
    if e.Verbatim? {
      SliceEmbedded(e.tlvs, data, off, 0, |e.tlvs|);
    } else {
      ElementReads(e, data, off);
      if e.Constructed? {
        SizeAllExact(e.children);
        AllEncodedReadBack(e.children, Content(e), 0);
      }
    }
  }

  lemma {:induction false} AllEncodedReadBack(es: seq<Element>, data: octets, off: nat)
    requires WideTagsAll(es) == 0 && SizeAll(es) < 0x1_0000_0000
    requires Embedded(EncodeAll(es), data, off) && off + |EncodeAll(es)| == |data|
    ensures AllReadBack(es, data, off)
    decreases es
  {
    hide TlvAt;
    hide ReadsBack;
    if es != [] {
      EmbeddedParts(Encode(es[0]), EncodeAll(es[1..]), data, off);
      assert ContentSize(es[0]) <= Size(es[0]);
      EncodedReadsBack(es[0], data, off);
      AllEncodedReadBack(es[1..], data, off + |Encode(es[0])|);
    }
  }

  /** Reading one encoded element off any buffer, as the decoders do. */
  lemma ElementReads(e: Element, data: octets, off: nat)
    requires !e.Verbatim? && WideTags(e) == 0 && ContentSize(e) < 0x1_0000_0000
    requires Embedded(Encode(e), data, off)
    ensures TlvAt(data, off, 0) == Got(Tlv(e.tag, Content(e)), off + |Encode(e)|)
  {
    hide TlvAt;
    EncodeIsTlv(e);
    TlvReads(e.tag, Content(e), data, off, 0);
  }

  lemma OneElement(a: Element)
    ensures SizeAll([a]) == Size(a) && WideTagsAll([a]) == WideTags(a) && EncodeAll([a]) == Encode(a)
  {
    hide Size, WideTags, Encode;
    assert [a][1..] == [];
  }

  lemma TwoElements(a: Element, b: Element)
    ensures SizeAll([a, b]) == Size(a) + Size(b)
    ensures WideTagsAll([a, b]) == WideTags(a) + WideTags(b)
    ensures EncodeAll([a, b]) == Encode(a) + Encode(b)
  {
    hide Size, WideTags, Encode;
    OneElement(b);
    assert [a, b][1..] == [b];
  }

  /** The cursor's other reads, on one encoded element. */
  lemma ElementExpects(e: Element, data: octets, off: nat, t: Tag)
    requires !e.Verbatim? && WideTags(e) == 0 && ContentSize(e) < 0x1_0000_0000
    requires Embedded(Encode(e), data, off)
    ensures |Encode(e)| >= 2
    ensures var next := off + |Encode(e)|;
            && TagAt(data, off).Got? && TagAt(data, off).value == e.tag
            && ExpectAt(data, off, e.tag) == Got(Content(e), next)
            && OptionalAt(data, off, t) == if t == e.tag then Got(Some(Content(e)), next) else Got(None, off)
  {
    hide TlvAt, TagAt, Encode;
    ElementReads(e, data, off);
    EncodeIsTlv(e);
    var d := Encode(e);
    HeaderReads(e.tag, |Content(e)|, Content(e));
    TagShift(d, data, off, 0);
  }
}
