/** The bounds-checked BER cursor (src/asn1/decoder.rs): what each read yields
    as a function of the buffer and the offset, and the cursor itself. */
module Decoding {
  import opened Octets
  import opened Ber

  datatype Reading = ReadingTag | ReadingLength | ReadingContent

  datatype Error =
    | Truncated(what: Reading, offset: nat)
    | BadTag(offset: nat)
    | BadLength(offset: nat)
    | TooDeep(offset: nat)
    | Unexpected(expected: Tag, got: Tag, offset: nat)
    | BadValue

  /** A read yields a value and the offset after it, or an error. */
  datatype Read<+T> = Got(value: T, next: nat) | Bad(error: Error)

  datatype Tlv = Tlv(tag: Tag, content: octets)

  // ---- What a read yields.

  /** The high tag number form, `i` octets into it with `acc` read so far. The
      accumulator is 32 bits wide, so the shift drops what leaves the top. */
  function HighNumberAt(data: octets, off: nat, i: nat, acc: u32): (r: Read<u32>)
    requires off <= |data|
    ensures r.Got? ==> off < r.next <= |data|
    ensures r.Bad? ==> !r.error.Unexpected? && !r.error.BadValue? && off <= r.error.offset <= |data|
    decreases |data| - off
  {
    if off >= |data| then Bad(Truncated(ReadingTag, off))
    else if i >= 5 then Bad(BadTag(off))
    else
      var n := 128 * (acc % 0x200_0000) + (data[off] % 128) as int;
      if data[off] < 128 then Got(n, off + 1) else HighNumberAt(data, off + 1, i + 1, n)
  }

  function TagAt(data: octets, off: nat): (r: Read<Tag>)
    requires off <= |data|
    ensures r.Got? ==> off < r.next <= |data|
    ensures r.Bad? ==> !r.error.Unexpected? && !r.error.BadValue? && off <= r.error.offset <= |data|
  {
    if off >= |data| then Bad(Truncated(ReadingTag, off))
    else
      var b := data[off];
      var cls, cons := ClassOf(b / 64), b / 32 % 2 == 1;
      if b % 32 != 31 then Got(Tag(cls, cons, (b % 32) as int), off + 1)
      else
        match HighNumberAt(data, off + 1, 0, 0)
        case Got(n, next) => Got(Tag(cls, cons, n), next)
        case Bad(e) => Bad(e)
  }

  /** The length octets; `None` is the indefinite form. */
  function LengthAt(data: octets, off: nat): (r: Read<Option<nat>>)
    requires off <= |data|
    ensures r.Got? ==> off < r.next <= |data|
    ensures r.Bad? ==> !r.error.Unexpected? && !r.error.BadValue? && off <= r.error.offset <= |data|
  {
    if off >= |data| then Bad(Truncated(ReadingLength, off))
    else
      var b := data[off];
      if b < 0x80 then Got(Some(b as int), off + 1)
      else if b == 0x80 then Got(None, off + 1)
      else if b - 0x80 > 4 then Bad(BadLength(off + 1))
      else if off + 1 + (b - 0x80) as int > |data| then Bad(Truncated(ReadingLength, off + 1))
      else
        var next := off + 1 + (b - 0x80) as int;
        Got(Some(BeValue(data[off + 1..next])), next)
  }

  /** One element at `off`, `depth` indefinite-length elements down. A
      successful read takes at least two octets and stays inside the buffer. */
  function TlvAt(data: octets, off: nat, depth: nat): (r: Read<Tlv>)
    requires off <= |data|
    ensures r.Got? ==> off + 2 + |r.value.content| <= r.next <= |data|
    ensures r.Bad? ==> !r.error.Unexpected? && !r.error.BadValue? && off <= r.error.offset <= |data|
    decreases |data| - off, 0
  {
    if depth > MAX_DEPTH then Bad(TooDeep(off))
    else
      match TagAt(data, off)
      case Bad(e) => Bad(e)
      case Got(t, at) =>
        match LengthAt(data, at)
        case Bad(e) => Bad(e)
        case Got(Some(n), from) =>
          if n > |data| - from then Bad(Truncated(ReadingContent, from))
          else Got(Tlv(t, data[from..from + n]), from + n)
        case Got(None, from) =>
          if !t.constructed then Bad(BadLength(from))
          else
            match EndOfContentsFrom(data, from, depth)
            case Bad(e) => Bad(e)
            case Got(end, next) => Got(Tlv(t, data[from..end]), next)
  }

  /** The structural scan of an indefinite-length element: where its contents
      end, reading children from `off` until `00 00`. */
  function EndOfContentsFrom(data: octets, off: nat, depth: nat): (r: Read<nat>)
    requires off <= |data|
    ensures r.Got? ==> off <= r.value && r.next == r.value + 2 <= |data|
    ensures r.Bad? ==> !r.error.Unexpected? && !r.error.BadValue? && off <= r.error.offset <= |data|
    decreases |data| - off, 1
  {
    if off + 2 <= |data| && data[off] == 0 && data[off + 1] == 0 then Got(off, off + 2)
    else
      match TlvAt(data, off, depth + 1)
      case Bad(e) => Bad(e)
      case Got(_, next) => EndOfContentsFrom(data, next, depth)
  }

  function ExpectAt(data: octets, off: nat, t: Tag): (r: Read<octets>)
    requires off <= |data|
    ensures r.Got? ==> off + 2 + |r.value| <= r.next <= |data|
  {
    match TlvAt(data, off, 0)
    case Bad(e) => Bad(e)
    case Got(e, next) => if e.tag != t then Bad(Unexpected(t, e.tag, off)) else Got(e.content, next)
  }

  function OptionalAt(data: octets, off: nat, t: Tag): (r: Read<Option<octets>>)
    requires off <= |data|
    ensures r.Got? ==> off <= r.next <= |data|
    ensures r.Got? && r.value.Some? ==> off + 2 + |r.value.value| <= r.next
  {
    if off >= |data| then Got(None, off)
    else
      match TagAt(data, off)
      case Bad(e) => Bad(e)
      case Got(tag, _) =>
        if tag != t then Got(None, off)
        else
          match TlvAt(data, off, 0)
          case Bad(e) => Bad(e)
          case Got(e, next) => Got(Some(e.content), next)
  }

  // ---- The cursor.

  class Decoder {
    const data: octets
    var off: nat

    ghost predicate Valid()
      reads this
    {
      off <= |data|
    }

    constructor (data: octets)
      ensures this.data == data && off == 0 && Valid()
    {
      this.data := data;
      off := 0;
    }

    predicate More()
      reads this
    {
      off < |data|
    }

    method ReadTag() returns (r: Result<Tag, Error>)
      requires Valid()
      modifies this
      ensures Valid()
      ensures match TagAt(data, old(off))
              case Got(t, next) => r == Ok(t) && off == next
              case Bad(e) => r == Err(e) && off == e.offset
    {
      if off >= |data| {
        return Err(Truncated(ReadingTag, off));
      }
      var b := data[off];
      off := off + 1;
      var cls, cons := ClassOf(b / 64), b / 32 % 2 == 1;
      if b % 32 != 31 {
        return Ok(Tag(cls, cons, (b % 32) as int));
      }
      var number: u32, i := 0, 0;
      while true
        invariant old(off) < off <= |data|
        invariant HighNumberAt(data, old(off) + 1, 0, 0) == HighNumberAt(data, off, i, number)
        decreases |data| - off
      {
        if off >= |data| {
          return Err(Truncated(ReadingTag, off));
        }
        if i >= 5 {
          return Err(BadTag(off));
        }
        var c := data[off];
        off := off + 1;
        number := 128 * (number % 0x200_0000) + (c % 128) as int;
        if c < 128 {
          return Ok(Tag(cls, cons, number));
        }
        i := i + 1;
      }
    }

    method ReadLength() returns (r: Result<Option<nat>, Error>)
      requires Valid()
      modifies this
      ensures Valid()
      ensures match LengthAt(data, old(off))
              case Got(n, next) => r == Ok(n) && off == next
              case Bad(e) => r == Err(e) && off == e.offset
    {
      if off >= |data| {
        return Err(Truncated(ReadingLength, off));
      }
      var b := data[off];
      off := off + 1;
      if b < 0x80 {
        return Ok(Some(b as int));
      }
      if b == 0x80 {
        return Ok(None);
      }
      var count := (b - 0x80) as int;
      if count > 4 {
        return Err(BadLength(off));
      }
      if off + count > |data| {
        return Err(Truncated(ReadingLength, off));
      }
      var n: nat, from := 0, off;
      for k := 0 to count
        invariant off == from + k
        invariant n == BeValue(data[from..off])
      {
        assert data[from..off + 1][..k] == data[from..off];
        n := 256 * n + data[off] as int;
        off := off + 1;
      }
      return Ok(Some(n));
    }

    method ReadTlvAt(depth: nat) returns (r: Result<Tlv, Error>)
      requires Valid()
      modifies this
      ensures Valid()
      ensures match TlvAt(data, old(off), depth)
              case Got(e, next) => r == Ok(e) && off == next
              case Bad(e) => r == Err(e) && off == e.offset
      decreases |data| - off
    {
      if depth > MAX_DEPTH {
        return Err(TooDeep(off));
      }
      var tag := ReadTag();
      if tag.Err? {
        return Err(tag.error);
      }
      var len := ReadLength();
      if len.Err? {
        return Err(len.error);
      }
      var t := tag.value;
      if len.value.Some? {
        var n := len.value.value;
        if n > |data| - off {
          return Err(Truncated(ReadingContent, off));
        }
        var content := data[off..off + n];
        off := off + n;
        return Ok(Tlv(t, content));
      }
      if !t.constructed {
        return Err(BadLength(off));
      }
      var start := off;
      while true
        invariant old(off) < start <= off <= |data|
        invariant EndOfContentsFrom(data, start, depth) == EndOfContentsFrom(data, off, depth)
        decreases |data| - off
      {
        if off + 2 <= |data| && data[off] == 0 && data[off + 1] == 0 {
          var content := data[start..off];
          off := off + 2;
          return Ok(Tlv(t, content));
        }
        var child := ReadTlvAt(depth + 1);
        if child.Err? {
          return Err(child.error);
        }
      }
    }

    method Expect(t: Tag) returns (r: Result<octets, Error>)
      requires Valid()
      modifies this
      ensures Valid() && old(off) <= off
      ensures match ExpectAt(data, old(off), t)
              case Got(c, next) => r == Ok(c) && off == next
              case Bad(e) => r == Err(e)
    {
      var at := off;
      var e := ReadTlvAt(0);
      if e.Err? {
        return Err(e.error);
      }
      if e.value.tag != t {
        return Err(Unexpected(t, e.value.tag, at));
      }
      return Ok(e.value.content);
    }

    method Peek() returns (r: Result<Tag, Error>)
      requires Valid()
      ensures match TagAt(data, off)
              case Got(t, _) => r == Ok(t)
              case Bad(e) => r == Err(e)
    {
      var probe := new Decoder(data);
      probe.off := off;
      r := probe.ReadTag();
    }

    method Optional(t: Tag) returns (r: Result<Option<octets>, Error>)
      requires Valid()
      modifies this
      ensures Valid() && old(off) <= off
      ensures match OptionalAt(data, old(off), t)
              case Got(c, next) => r == Ok(c) && off == next
              case Bad(e) => r == Err(e)
    {
      if !More() {
        return Ok(None);
      }
      var tag := Peek();
      if tag.Err? {
        return Err(tag.error);
      }
      if tag.value != t {
        return Ok(None);
      }
      var e := ReadTlvAt(0);
      if e.Err? {
        return Err(e.error);
      }
      return Ok(Some(e.value.content));
    }
  }

  /** What an element reads as, from what its parts read as. */
  lemma TlvOfParts(data: octets, off: nat, depth: nat, t: Tag, at: nat, len: Option<nat>, from: nat)
    requires off <= |data| && depth <= MAX_DEPTH
    requires TagAt(data, off) == Got(t, at) && LengthAt(data, at) == Got(len, from)
    ensures len.Some? && from + len.value <= |data| ==>
              TlvAt(data, off, depth) == Got(Tlv(t, data[from..from + len.value]), from + len.value)
    ensures len.None? && t.constructed && EndOfContentsFrom(data, from, depth).Got? ==>
              var end := EndOfContentsFrom(data, from, depth).value;
              TlvAt(data, off, depth) == Got(Tlv(t, data[from..end]), end + 2)
  {
    hide TagAt, LengthAt, EndOfContentsFrom;
  }

  /** One step of the scan. */
  lemma ScanStep(data: octets, off: nat, depth: nat)
    requires off <= |data|
    ensures off + 2 <= |data| && data[off] == 0 && data[off + 1] == 0 ==>
              EndOfContentsFrom(data, off, depth) == Got(off, off + 2)
    ensures !(off + 2 <= |data| && data[off] == 0 && data[off + 1] == 0) ==>
              match TlvAt(data, off, depth + 1)
              case Got(_, next) => EndOfContentsFrom(data, off, depth) == EndOfContentsFrom(data, next, depth)
              case Bad(_) => EndOfContentsFrom(data, off, depth).Bad?
  {
    hide TlvAt;
  }

  // ---- A read depends only on the octets it takes.

  /** `d` stands in `all` from offset `k` on. */
  ghost predicate Embedded(d: octets, all: octets, k: nat)
  {
    k + |d| <= |all| && forall i {:trigger d[i]} :: 0 <= i < |d| ==> all[k + i] == d[i]
  }

  lemma EmbeddedConcat(a: octets, b: octets)
    ensures Embedded(a, a + b, 0) && Embedded(b, a + b, |a|)
  {
  }

  lemma EmbeddedParts(a: octets, b: octets, all: octets, k: nat)
    requires Embedded(a + b, all, k)
    ensures Embedded(a, all, k) && Embedded(b, all, k + |a|)
  {
    forall i | 0 <= i < |a|
      ensures all[k + i] == a[i]
    {
      assert (a + b)[i] == a[i];
    }
    forall i | 0 <= i < |b|
      ensures all[k + |a| + i] == b[i]
    {
      assert (a + b)[|a| + i] == b[i];
    }
  }

  lemma SliceEmbedded(d: octets, all: octets, k: nat, from: nat, end: nat)
    requires Embedded(d, all, k) && from <= end <= |d|
    ensures all[k + from..k + end] == d[from..end]
  {
    var a, b := all[k + from..k + end], d[from..end];
    forall i | 0 <= i < |b|
      ensures a[i] == b[i]
    {
      assert b[i] == d[from + i];
      assert all[k + (from + i)] == d[from + i];
    }
  }

  lemma {:induction false} HighNumberShift(d: octets, all: octets, k: nat, off: nat, i: nat, acc: u32)
    requires Embedded(d, all, k) && off <= |d| && HighNumberAt(d, off, i, acc).Got?
    ensures var r := HighNumberAt(d, off, i, acc);
            HighNumberAt(all, k + off, i, acc) == Got(r.value, k + r.next)
    decreases |d| - off
  {
    if d[off] >= 128 {
      var n := 128 * (acc % 0x200_0000) + (d[off] % 128) as int;
      HighNumberShift(d, all, k, off + 1, i + 1, n);
    }
  }

  lemma TagShift(d: octets, all: octets, k: nat, off: nat)
    requires Embedded(d, all, k) && off <= |d| && TagAt(d, off).Got?
    ensures var r := TagAt(d, off);
            TagAt(all, k + off) == Got(r.value, k + r.next)
  {
    if d[off] % 32 == 31 {
      HighNumberShift(d, all, k, off + 1, 0, 0);
    }
  }

  lemma LengthShift(d: octets, all: octets, k: nat, off: nat)
    requires Embedded(d, all, k) && off <= |d| && LengthAt(d, off).Got?
    ensures var r := LengthAt(d, off);
            LengthAt(all, k + off) == Got(r.value, k + r.next)
  {
    SliceEmbedded(d, all, k, off + 1, LengthAt(d, off).next);
  }

  /** An element that reads in a buffer reads the same, at any smaller depth,
      wherever that buffer stands inside other octets. */
  lemma {:induction false} TlvShift(d: octets, all: octets, k: nat, off: nat, depth: nat, depth': nat)
    requires Embedded(d, all, k) && off <= |d| && depth' <= depth && TlvAt(d, off, depth).Got?
    ensures var r := TlvAt(d, off, depth);
            TlvAt(all, k + off, depth') == Got(r.value, k + r.next)
    decreases |d| - off, 0
  {
    hide TagAt, LengthAt, EndOfContentsFrom;
    TagShift(d, all, k, off);
    var at := TagAt(d, off).next;
    LengthShift(d, all, k, at);
    var len := LengthAt(d, at);
    var from := len.next;
    if len.value.Some? {
      SliceEmbedded(d, all, k, from, from + len.value.value);
    } else {
      EndOfContentsShift(d, all, k, from, depth, depth');
      SliceEmbedded(d, all, k, from, EndOfContentsFrom(d, from, depth).value);
    }
  }

  lemma {:induction false} EndOfContentsShift(d: octets, all: octets, k: nat, off: nat, depth: nat, depth': nat)
    requires Embedded(d, all, k) && off <= |d| && depth' <= depth && EndOfContentsFrom(d, off, depth).Got?
    ensures var r := EndOfContentsFrom(d, off, depth);
            EndOfContentsFrom(all, k + off, depth') == Got(k + r.value, k + r.next)
    decreases |d| - off, 1
  {
    hide TlvAt, EndOfContentsFrom;
    ScanStep(d, off, depth);
    ScanStep(all, k + off, depth');
    assert off + 2 <= |d|;
    assert all[k + off] == d[off];
    assert all[k + (off + 1)] == d[off + 1];
    if !(d[off] == 0 && d[off + 1] == 0) {
      var next := TlvAt(d, off, depth + 1).next;
      TlvShift(d, all, k, off, depth + 1, depth' + 1);
      EndOfContentsShift(d, all, k, next, depth, depth');
    }
  }

  // ---- Reading what the encoder writes.

  lemma {:induction false} HighNumberAfterContinued(v: nat, post: octets)
    requires v < 0x1000_0000
    ensures |Continued(v)| <= 4
    ensures var d := Continued(v) + post;
            HighNumberAt(d, 0, 0, 0) == HighNumberAt(d, |Continued(v)|, |Continued(v)|, v)
  {
    ContinuedSize(v);
    if v == 0 {
      assert Continued(0) == [];
    } else {
      var q, last := v / 128, [(128 + v % 128) as byte];
      assert q < 0x20_0000;
      var init := Continued(q);
      HighNumberAfterContinued(q, last + post);
      var d := init + (last + post);
      assert Continued(v) + post == d;
      assert |init| < 4;
      HighNumberStep(d, |init|, q, v);
    }
  }

  lemma HighNumberStep(d: octets, i: nat, q: u32, v: u32)
    requires i < 5 && i < |d| && q < 0x200_0000 && v / 128 == q && d[i] as int == 128 + v % 128
    ensures HighNumberAt(d, i, i, q) == HighNumberAt(d, i + 1, i + 1, v)
  {
    assert (d[i] % 128) as int == v % 128;
  }

  lemma HighNumberEnd(d: octets, i: nat, q: u32, v: u32)
    requires i < 5 && i < |d| && q < 0x200_0000 && v / 128 == q && d[i] as int == v % 128
    ensures HighNumberAt(d, i, i, q) == Got(v, i + 1)
  {
    assert (d[i] % 128) as int == v % 128;
  }

  lemma Base128Reads(v: u32)
    ensures HighNumberAt(Base128(v), 0, 0, 0) == Got(v, |Base128(v)|)
  {
    hide HighNumberAt, Continued;
    var q, last := v / 128, [(v % 128) as byte];
    assert q < 0x200_0000;
    HighNumberAfterContinued(q, last);
    var d := Continued(q) + last;
    assert d[|Continued(q)|] == last[0];
    HighNumberEnd(d, |Continued(q)|, q, v);
  }

  /** The identifier octets of every tag, 32-bit numbers included, read back
      as the tag. */
  lemma TagReads(t: Tag)
    ensures TagAt(TagOctets(t), 0) == Got(t, |TagOctets(t)|)
  {
    hide Base128, HighNumberAt;
    if t.number >= 31 {
      Base128Reads(t.number);
      HighNumberShift(Base128(t.number), TagOctets(t), 1, 0, 0, 0);
    }
  }

  lemma LengthReads(n: nat)
    requires n < 0x1_0000_0000
    ensures LengthAt(LengthOctets(n), 0) == Got(Some(n), |LengthOctets(n)|)
  {
    var s := LengthOctets(n);
    if n >= 0x80 {
      var w := |s| - 1;
      assert s[1..] == BeOctets(n, w);
      assert Pow256(1) == 256 && Pow256(2) == 0x1_0000 && Pow256(3) == 0x100_0000 && Pow256(4) == 0x1_0000_0000;
      BeRoundTrip(n, w);
      assert s[0] as int == 0x80 + w;
      assert s[1..1 + w] == s[1..];
    }
  }

  /** A tag and a definite length read off the front of any content. */
  lemma HeaderReads(t: Tag, n: nat, rest: octets)
    requires n < 0x1_0000_0000
    ensures var d := TagOctets(t) + LengthOctets(n) + rest;
            && TagAt(d, 0) == Got(t, |TagOctets(t)|)
            && LengthAt(d, |TagOctets(t)|) == Got(Some(n), |TagOctets(t)| + |LengthOctets(n)|)
  {
    var d := TagOctets(t) + LengthOctets(n) + rest;
    TagReads(t);
    TagShift(TagOctets(t), d, 0, 0);
    LengthReads(n);
    LengthShift(LengthOctets(n), d, |TagOctets(t)|, 0);
  }

  lemma TlvReadsAlone(t: Tag, content: octets, depth: nat)
    requires |content| < 0x1_0000_0000 && depth <= MAX_DEPTH
    ensures TlvAt(TlvOctets(t, content), 0, depth) == Got(Tlv(t, content), |TlvOctets(t, content)|)
  {
    hide TlvAt, TagAt, LengthAt, TagOctets, LengthOctets;
    var d := TlvOctets(t, content);
    HeaderReads(t, |content|, content);
    var from := |TagOctets(t)| + |LengthOctets(|content|)|;
    assert d[from..from + |content|] == content;
    TlvOfParts(d, 0, depth, t, |TagOctets(t)|, Some(|content|), from);
  }

  /** A definite-length element reads back whole, anywhere in a buffer. */
  lemma TlvReads(t: Tag, content: octets, data: octets, off: nat, depth: nat)
    requires |content| < 0x1_0000_0000 && depth <= MAX_DEPTH
    requires Embedded(TlvOctets(t, content), data, off)
    ensures TlvAt(data, off, depth) == Got(Tlv(t, content), off + |TlvOctets(t, content)|)
  {
    hide TlvAt;
    TlvReadsAlone(t, content, depth);
    TlvShift(TlvOctets(t, content), data, off, 0, depth, depth);
  }

  // ---- The indefinite form.

  function Concat(parts: seq<octets>): (s: octets)
  {
    if parts == [] then [] else parts[0] + Concat(parts[1..])
  }

  /** One whole element that reads `depth` indefinite elements down. */
  ghost predicate WholeElement(s: octets, depth: nat)
  {
    TlvAt(s, 0, depth).Got? && TlvAt(s, 0, depth).next == |s|
  }

  predicate StartsWithEoc(s: octets) { |s| >= 2 && s[0] == 0 && s[1] == 0 }

  function IndefiniteOctets(t: Tag, children: seq<octets>): (s: octets)
  {
    TagOctets(t) + [0x80] + (Concat(children) + [0, 0])
  }

  /** How many leading children the scan passes before it meets `00 00`. */
  function ScannedChildren(children: seq<octets>): (k: nat)
    ensures k <= |children|
    ensures k == |children| <==> forall i :: 0 <= i < |children| ==> !StartsWithEoc(children[i])
  {
    if children == [] || StartsWithEoc(children[0]) then 0 else 1 + ScannedChildren(children[1..])
  }

  lemma {:induction false} ScanReads(children: seq<octets>, depth: nat)
    requires forall i :: 0 <= i < |children| ==> WholeElement(children[i], depth + 1)
    ensures var n := |Concat(children[..ScannedChildren(children)])|;
            EndOfContentsFrom(Concat(children) + [0, 0], 0, depth) == Got(n, n + 2)
    decreases |children|
  {
    hide TlvAt, EndOfContentsFrom;
    var d := Concat(children) + [0, 0];
    ScanStep(d, 0, depth);
    if children == [] {
      assert d == [0, 0];
    } else if StartsWithEoc(children[0]) {
      assert d[0] == 0 && d[1] == 0;
    } else {
      var head, tail, k := children[0], children[1..], ScannedChildren(children[1..]);
      ScanReads(tail, depth);
      var after := Concat(tail) + [0, 0];
      assert d == head + after;
      EmbeddedConcat(head, after);
      ScanPasses(head, after, d, depth);
      assert children[..k + 1] == [head] + tail[..k];
    }
  }

  /** A first child that is not `00 00` is passed whole. */
  lemma ScanPasses(head: octets, after: octets, d: octets, depth: nat)
    requires WholeElement(head, depth + 1) && !StartsWithEoc(head) && EndOfContentsFrom(after, 0, depth).Got?
    requires Embedded(head, d, 0) && Embedded(after, d, |head|)
    ensures var r := EndOfContentsFrom(after, 0, depth);
            EndOfContentsFrom(d, 0, depth) == Got(|head| + r.value, |head| + r.next)
  {
    hide TlvAt, EndOfContentsFrom;
    assert d[0] == head[0] && d[1] == head[1];
    TlvShift(head, d, 0, 0, depth + 1, depth + 1);
    assert TlvAt(d, 0, depth + 1).next == |head|;
    ScanStep(d, 0, depth);
    EndOfContentsShift(after, d, |head|, 0, depth, depth);
  }

  lemma IndefiniteReadsAlone(t: Tag, children: seq<octets>, depth: nat)
    requires t.constructed && depth <= MAX_DEPTH
    requires forall i :: 0 <= i < |children| ==> WholeElement(children[i], depth + 1)
    ensures var content := Concat(children[..ScannedChildren(children)]);
            && TlvAt(IndefiniteOctets(t, children), 0, depth)
               == Got(Tlv(t, content), |TagOctets(t)| + 3 + |content|)
  {
    hide TlvAt, EndOfContentsFrom, TagAt, TagOctets;
    var d, from := IndefiniteOctets(t, children), |TagOctets(t)| + 1;
    var body := Concat(children) + [0, 0];
    TagReads(t);
    TagShift(TagOctets(t), d, 0, 0);
    assert d[|TagOctets(t)|] == 0x80;
    ScanReads(children, depth);
    EndOfContentsShift(body, d, from, 0, depth, depth);
    var k := ScannedChildren(children);
    ConcatPrefix(children, k);
    var n := |Concat(children[..k])|;
    SliceEmbedded(body, d, from, 0, n);
    assert body[0..n] == Concat(children[..k]);
    TlvOfParts(d, 0, depth, t, |TagOctets(t)|, None, from);
  }

  /** Elements wrapped in the indefinite form read, anywhere in a buffer, as
      the tag and the children before the first that starts with `00 00`. */
  lemma IndefiniteReads(t: Tag, children: seq<octets>, data: octets, off: nat, depth: nat)
    requires t.constructed && depth <= MAX_DEPTH
    requires forall i :: 0 <= i < |children| ==> WholeElement(children[i], depth + 1)
    requires Embedded(IndefiniteOctets(t, children), data, off)
    ensures var content := Concat(children[..ScannedChildren(children)]);
            TlvAt(data, off, depth) == Got(Tlv(t, content), off + |TagOctets(t)| + 3 + |content|)
  {
    hide TlvAt;
    IndefiniteReadsAlone(t, children, depth);
    TlvShift(IndefiniteOctets(t, children), data, off, 0, depth, depth);
  }

  lemma {:induction false} ConcatPrefix(parts: seq<octets>, k: nat)
    requires k <= |parts|
    ensures Concat(parts) == Concat(parts[..k]) + Concat(parts[k..])
  {
    if k == 0 {
      assert parts[..0] == [] && parts[0..] == parts;
    } else {
      ConcatPrefix(parts[1..], k - 1);
      assert parts[..k][1..] == parts[1..][..k - 1];
      assert parts[1..][k - 1..] == parts[k..];
    }
  }

  /** The indefinite form reads as the definite form does, to the end of its
      octets, exactly when no child starts with `00 00`. */
  lemma IndefiniteIsDefinite(pre: octets, t: Tag, children: seq<octets>, post: octets, depth: nat)
    requires t.constructed && depth <= MAX_DEPTH
    requires forall i :: 0 <= i < |children| ==> WholeElement(children[i], depth + 1)
    requires |Concat(children)| < 0x1_0000_0000
    ensures var indefinite := IndefiniteOctets(t, children);
            var definite := TlvOctets(t, Concat(children));
            var di := TlvAt(pre + indefinite + post, |pre|, depth);
            var dd := TlvAt(pre + definite + post, |pre|, depth);
            && dd == Got(Tlv(t, Concat(children)), |pre| + |definite|)
            && (di == Got(dd.value, |pre| + |indefinite|) <==>
                forall i :: 0 <= i < |children| ==> !StartsWithEoc(children[i]))
  {
    hide TlvAt;
    TlvReads(t, Concat(children), pre + TlvOctets(t, Concat(children)) + post, |pre|, depth);
    IndefiniteReads(t, children, pre + IndefiniteOctets(t, children) + post, |pre|, depth);
    var k := ScannedChildren(children);
    if k == |children| {
      assert children[..k] == children;
    } else {
      ConcatPrefix(children, k);
      assert Concat(children[k..]) == children[k] + Concat(children[k..][1..]);
      assert WholeElement(children[k], depth + 1);
    }
  }
}
