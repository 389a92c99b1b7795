/** Identifier and length octets of BER elements (src/asn1/mod.rs). */
module Ber {
  import opened Octets

  datatype Class = Universal | Application | ContextSpecific | Private

  datatype Tag = Tag(class_: Class, constructed: bool, number: u32)

  const TAG_INTEGER := Tag(Universal, false, 2)
  const TAG_OID := Tag(Universal, false, 6)
  const TAG_SEQUENCE := Tag(Universal, true, 16)

  function ContextPrimitive(n: u32): Tag { Tag(ContextSpecific, false, n) }
  function ContextConstructed(n: u32): Tag { Tag(ContextSpecific, true, n) }
  function ApplicationConstructed(n: u32): Tag { Tag(Application, true, n) }

  const MAX_DEPTH: nat := 64

  function ClassBits(c: Class): (b: byte)
    ensures b < 4
  {
    match c
    case Universal => 0
    case Application => 1
    case ContextSpecific => 2
    case Private => 3
  }

  function ClassOf(b: byte): Class
    requires b < 4
  {
    if b == 0 then Universal
    else if b == 1 then Application
    else if b == 2 then ContextSpecific
    else Private
  }

  // ---- Base-128 numbers: tag numbers from 31 upward, and OID arcs.

  /** The base-128 digits of `v`, most significant first; `[0]` for zero. */
  function Digits(v: nat): (s: octets)
    ensures s != []
    ensures forall k :: 0 <= k < |s| ==> s[k] < 128
  {
    if v < 128 then [v as byte] else Digits(v / 128) + [(v % 128) as byte]
  }

  /** The digits of `v` with the continuation bit set on every one; none for zero. */
  function Continued(v: nat): (s: octets)
  {
    if v == 0 then [] else Continued(v / 128) + [(128 + v % 128) as byte]
  }

  /** Base-128, high bit set on all but the last octet. */
  function Base128(v: nat): (s: octets)
  {
    Continued(v / 128) + [(v % 128) as byte]
  }

  lemma {:induction false} ContinuedMarksDigits(v: nat)
    requires v > 0
    ensures |Continued(v)| == |Digits(v)|
    ensures forall k :: 0 <= k < |Digits(v)| ==> Continued(v)[k] == Digits(v)[k] + 128
  {
    if v >= 128 {
      ContinuedMarksDigits(v / 128);
    } else {
      assert Continued(0) == [];
    }
  }

  lemma Base128MarksDigits(v: nat)
    ensures |Base128(v)| == |Digits(v)|
    ensures forall k :: 0 <= k < |Digits(v)| - 1 ==> Base128(v)[k] == Digits(v)[k] + 128
    ensures Base128(v)[|Digits(v)| - 1] == Digits(v)[|Digits(v)| - 1]
  {
    if v >= 128 { ContinuedMarksDigits(v / 128); }
  }

  /** The octets a base-128 number takes. */
  function Base128Size(v: u32): (n: nat)
  {
    if v < 0x80 then 1
    else if v < 0x4000 then 2
    else if v < 0x20_0000 then 3
    else if v < 0x1000_0000 then 4
    else 5
  }

  lemma ContinuedSize(v: nat)
    requires v < 0x1000_0000
    ensures |Continued(v)| == if v == 0 then 0 else Base128Size(v)
  {
    var v1 := v / 128;
    var v2 := v1 / 128;
    var v3 := v2 / 128;
    var v4 := v3 / 128;
    assert v4 == 0;
    assert Continued(v4) == [];
  }

  lemma Base128Length(v: u32)
    ensures |Base128(v)| == Base128Size(v)
  {
    ContinuedSize(v / 128);
  }

  /** The source's loop: digits written backwards into a 5-octet array, then
      the continuation bit set on all but the last. */
  method AppendBase128(dst: octets, v: u32) returns (out: octets)
    ensures out == dst + Base128(v)
  {
    var tmp := new byte[5](_ => 0);
    var i := WriteDigits(tmp, v);
    MarkContinued(tmp, i, v);
    out := dst + tmp[i..];
  }

  method WriteDigits(tmp: array<byte>, v: u32) returns (i: nat)
    requires tmp.Length == 5
    modifies tmp
    ensures i < 5 && tmp[i..] == Digits(v)
  {
    i := 4;
    var n: nat := v / 128;
    tmp[i] := (v % 128) as byte;
    while n != 0
      invariant i < 5
      invariant n < [1, 0x10, 0x800, 0x4_0000, 0x200_0000][i]
      invariant Digits(v) == (if n == 0 then [] else Digits(n)) + tmp[i..]
      decreases n
    {
      ghost var was, n0 := tmp[i..], n;
      i := i - 1;
      tmp[i] := (n % 128) as byte;
      n := n / 128;
      assert tmp[i..] == [(n0 % 128) as byte] + was;
      assert Digits(n0) == (if n == 0 then [] else Digits(n)) + [(n0 % 128) as byte];
    }
  }

  method MarkContinued(tmp: array<byte>, first: nat, v: u32)
    requires tmp.Length == 5 && first < 5 && tmp[first..] == Digits(v)
    modifies tmp
    ensures tmp[first..] == Base128(v)
  {
    hide Digits, Base128;
    ghost var digits := tmp[first..];
    Base128MarksDigits(v);
    var j := first;
    while j < 4
      invariant first <= j <= 4
      invariant forall k :: first <= k < j ==> tmp[k] == digits[k - first] + 128
      invariant forall k :: j <= k < 5 ==> tmp[k] == digits[k - first]
    {
      assert digits[j - first] < 128;
      tmp[j] := tmp[j] + 128;
      j := j + 1;
    }
    assert tmp[first..] == Base128(v);
  }

  // ---- Identifier octets.

  function LeadOctet(t: Tag): (b: byte)
  {
    64 * ClassBits(t.class_) + (if t.constructed then 32 else 0) + (if t.number < 31 then t.number as byte else 31)
  }

  function TagOctets(t: Tag): (s: octets)
    ensures s != []
  {
    [LeadOctet(t)] + if t.number < 31 then [] else Base128(t.number)
  }

  method AppendTag(dst: octets, t: Tag) returns (out: octets)
    ensures out == dst + TagOctets(t)
  {
    var b: byte := 64 * ClassBits(t.class_);
    if t.constructed { b := b + 32; }
    if t.number < 31 {
      return dst + [b + t.number as byte];
    }
    out := dst + [b + 31];
    out := AppendBase128(out, t.number);
  }

  function TagSize(t: Tag): nat
  {
    if t.number <= 30 then 1
    else if t.number < 0x80 then 2
    else if t.number < 0x4000 then 3
    else if t.number < 0x20_0000 then 4
    else 5
  }

  /** A tag number of 2^28 or more takes an octet more than `TagSize` says. */
  predicate WideTag(t: Tag) { t.number >= 0x1000_0000 }

  lemma TagSizeExact(t: Tag)
    ensures |TagOctets(t)| == TagSize(t) + if WideTag(t) then 1 else 0
  {
    Base128Length(t.number);
  }

  // ---- Length octets.

  /** Definite-form length octets. Lengths of 2^32 or more lose their high
      bits: there is no form above four octets. */
  function LengthOctets(n: nat): (s: octets)
  {
    if n < 0x80 then [n as byte]
    else if n <= 0xff then [0x81] + BeOctets(n, 1)
    else if n <= 0xffff then [0x82] + BeOctets(n, 2)
    else if n <= 0xff_ffff then [0x83] + BeOctets(n, 3)
    else [0x84] + BeOctets(n, 4)
  }

  function LengthSize(n: nat): (k: nat)
    ensures 1 <= k <= 5
  {
    if n <= 0x7f then 1 else if n <= 0xff then 2 else if n <= 0xffff then 3 else if n <= 0xff_ffff then 4 else 5
  }

  lemma LengthSizeExact(n: nat)
    ensures |LengthOctets(n)| == LengthSize(n)
  {
  }

  function TlvOctets(t: Tag, content: octets): (s: octets)
  {
    TagOctets(t) + LengthOctets(|content|) + content
  }

  function TlvSize(t: Tag, n: nat): nat { TagSize(t) + LengthSize(n) + n }
}
