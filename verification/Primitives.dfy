/** Primitive contents: integers, bit strings, booleans (src/asn1/primitives.rs). */
module Primitives {
  import opened Octets
  import opened Ber
  import opened Decoding
  import opened Elements

  // ---- Signed integers.

  /** The octets the minimal two's-complement form of `v` takes. */
  function IntWidth(v: int): (n: nat)
    ensures n >= 1
    decreases if v < 0 then -v else v
  {
    if -0x80 <= v <= 0x7f then 1 else 1 + IntWidth(v / 256)
  }

  function IntOctets(v: i64): octets { BeOctets(v, IntWidth(v)) }

  /** The number a two's-complement octet string denotes. */
  function SignedValue(c: octets): int
    requires c != []
  {
    BeValue(c) - if c[0] >= 128 then Pow256(|c|) else 0
  }

  lemma SignedValueNext(c: octets, b: byte)
    requires c != []
    ensures SignedValue(c + [b]) == 256 * SignedValue(c) + b as int
  {
    assert (c + [b])[..|c|] == c;
  }

  lemma {:induction false} SignedRange(c: octets)
    requires c != []
    ensures -128 * Pow256(|c| - 1) <= SignedValue(c) < 128 * Pow256(|c| - 1)
  {
    if |c| == 1 {
      assert BeValue(c) == c[0] as int by { assert c[..0] == []; }
    } else {
      var init := c[..|c| - 1];
      SignedRange(init);
      SignedValueNext(init, c[|c| - 1]);
      assert c == init + [c[|c| - 1]];
      assert Pow256(|c| - 1) == 256 * Pow256(|c| - 2);
    }
  }

  lemma Pow256Words()
    ensures Pow256(4) == 0x1_0000_0000
    ensures Pow256(7) == 0x100_0000_0000_0000 && Pow256(8) == 0x1_0000_0000_0000_0000
  {
    assert Pow256(2) == 0x1_0000 && Pow256(4) == 0x1_0000_0000 && Pow256(6) == 0x1_0000_0000_0000;
  }

  /** `v` fits `n` two's-complement octets exactly when `n` is at least its width. */
  lemma {:induction false} IntWidthExact(v: int, n: nat)
    requires n >= 1
    ensures -128 * Pow256(n - 1) <= v < 128 * Pow256(n - 1) <==> IntWidth(v) <= n
    decreases n
  {
    if n > 1 && !(-0x80 <= v <= 0x7f) {
      IntWidthExact(v / 256, n - 1);
      assert Pow256(n - 1) == 256 * Pow256(n - 2);
    }
  }

  lemma SignedOctet(v: int)
    requires -128 <= v < 128
    ensures SignedValue(BeOctets(v, 1)) == v
  {
    var s := BeOctets(v, 1);
    assert s == [(v % 256) as byte];
    assert BeValue(s) == v % 256 by { assert s[..0] == []; }
    assert Pow256(1) == 256;
  }

  lemma {:induction false} SignedRoundTrip(v: int, n: nat)
    requires n >= 1 && -128 * Pow256(n - 1) <= v < 128 * Pow256(n - 1)
    ensures SignedValue(BeOctets(v, n)) == v
    decreases n
  {
    if n == 1 {
      SignedOctet(v);
    } else {
      assert Pow256(n - 1) == 256 * Pow256(n - 2);
      SignedRoundTrip(v / 256, n - 1);
      SignedValueNext(BeOctets(v / 256, n - 1), (v % 256) as byte);
    }
  }

  function IntOf(c: octets): Result<i64, Error>
  {
    if c == [] || |c| > 8 then Err(BadValue)
    else
      SignedInRange(c);
      Ok(SignedValue(c))
  }

  lemma SignedInRange(c: octets)
    requires 1 <= |c| <= 8
    ensures -0x8000_0000_0000_0000 <= SignedValue(c) < 0x8000_0000_0000_0000
  {
    SignedRange(c);
    IntWidthExact(SignedValue(c), |c|);
    IntWidthExact(SignedValue(c), 8);
    Pow256Words();
  }

  /** Every 64-bit integer reads back from its octets, which number at most 8. */
  lemma IntRoundTrip(v: i64)
    ensures 1 <= |IntOctets(v)| <= 8 && IntOf(IntOctets(v)) == Ok(v)
  {
    var n := IntWidth(v);
    Pow256Words();
    IntWidthExact(v, 8);
    IntWidthExact(v, n);
    SignedRoundTrip(v, n);
  }

  /** No octet string that reads as a number is shorter than the one written for it. */
  lemma IntShortest(c: octets)
    requires IntOf(c).Ok?
    ensures |IntOctets(IntOf(c).value)| <= |c| <= 8
  {
    SignedRange(c);
    IntWidthExact(SignedValue(c), |c|);
  }

  method IntSize(v: i64) returns (n: nat)
    ensures n == IntWidth(v)
  {
    n := 1;
    var w: int := v;
    while !(-0x80 <= w <= 0x7f)
      invariant n + IntWidth(w) == 1 + IntWidth(v)
      decreases if w < 0 then -w else w
    {
      w := w / 256;
      n := n + 1;
    }
  }

  /** The low `n` octets, most significant first, as the shift loops push them. */
  method AppendShifts(dst: octets, v: int, n: nat) returns (out: octets)
    ensures out == dst + BeOctets(v, n)
  {
    out := dst;
    var i := n;
    while i > 0
      invariant 0 <= i <= n
      invariant out == dst + BeOctets(v, n)[..n - i]
    {
      i := i - 1;
      BeOctetsAt(v, n, n - 1 - i);
      out := out + [(ShiftRight(v, i) % 256) as byte];
    }
    assert BeOctets(v, n)[..n] == BeOctets(v, n);
  }

  /** An arithmetic shift right by `k` octets. */
  function ShiftRight(v: int, k: nat): int
    decreases k
  {
    if k == 0 then v else ShiftRight(v / 256, k - 1)
  }

  lemma {:induction false} BeOctetsAt(v: int, n: nat, k: nat)
    requires k < n
    ensures BeOctets(v, n)[k] as int == ShiftRight(v, n - 1 - k) % 256
    decreases n
  {
    if k < n - 1 { BeOctetsAt(v / 256, n - 1, k); }
  }

  method AppendInt(dst: octets, v: i64) returns (out: octets)
    ensures out == dst + IntOctets(v)
  {
    var n := IntSize(v);
    out := AppendShifts(dst, v, n);
  }

  method DecodeInt(c: octets) returns (r: Result<i64, Error>)
    ensures r == IntOf(c)
  {
    if c == [] || |c| > 8 {
      return Err(BadValue);
    }
    var v: int := if c[0] >= 128 then c[0] as int - 256 else c[0] as int;
    assert Pow256(1) == 256;
    assert c[..1] == [c[0]] && BeValue([c[0]]) == c[0] as int by { assert [c[0]][..0] == []; }
    for i := 1 to |c|
      invariant v == SignedValue(c[..i])
    {
      assert c[..i + 1] == c[..i] + [c[i]];
      SignedValueNext(c[..i], c[i]);
      v := 256 * v + c[i] as int;
    }
    assert c[..|c|] == c;
    SignedInRange(c);
    return Ok(v);
  }

  // ---- Unsigned integers.

  /** The octets the unsigned form takes; the top bit of the first is clear. */
  function UintWidth(v: nat): (n: nat)
    ensures n >= 1
  {
    if v <= 0x7f then 1 else 1 + UintWidth(v / 256)
  }

  function UintOctets(v: u64): octets { BeOctets(v, UintWidth(v)) }

  function UintOf(c: octets): Result<u64, Error>
  {
    if c == [] || |c| > 9 || (|c| == 9 && c[0] != 0) then Err(BadValue)
    else
      UintInRange(c);
      Ok(BeValue(c))
  }

  lemma {:induction false} LeadingZero(c: octets)
    requires c != [] && c[0] == 0
    ensures BeValue(c) == BeValue(c[1..])
  {
    if |c| == 1 {
      assert c[..0] == [] && c[1..] == [];
    } else {
      LeadingZero(c[..|c| - 1]);
      assert c[1..][..|c| - 2] == c[..|c| - 1][1..];
    }
  }

  lemma {:induction false} Pow256Mono(m: nat, n: nat)
    requires m <= n
    ensures Pow256(m) <= Pow256(n)
    decreases n
  {
    if m < n { Pow256Mono(m, n - 1); }
  }

  lemma UintInRange(c: octets)
    requires 1 <= |c| <= 9 && (|c| == 9 ==> c[0] == 0)
    ensures BeValue(c) < 0x1_0000_0000_0000_0000
  {
    Pow256Words();
    if |c| == 9 {
      LeadingZero(c);
      BeValueBound(c[1..]);
    } else {
      BeValueBound(c);
      Pow256Mono(|c|, 8);
    }
  }

  lemma {:induction false} UintWidthExact(v: nat, n: nat)
    requires n >= 1
    ensures v < 128 * Pow256(n - 1) <==> UintWidth(v) <= n
    decreases n
  {
    if n > 1 && v > 0x7f {
      UintWidthExact(v / 256, n - 1);
      assert Pow256(n - 1) == 256 * Pow256(n - 2);
    }
  }

  lemma UintFits(v: u64)
    ensures v < Pow256(UintWidth(v)) && UintWidth(v) <= 9
    ensures UintWidth(v) == 9 ==> BeOctets(v, 9)[0] == 0
  {
    var n := UintWidth(v);
    UintWidthExact(v, n);
    assert Pow256(n) == 256 * Pow256(n - 1);
    Pow256Words();
    assert Pow256(9) == 256 * Pow256(8);
    UintWidthExact(v, 9);
    BeOctetsAt(v, 9, 0);
  }

  /** Every 64-bit unsigned integer reads back from its octets. */
  lemma UintRoundTrip(v: u64)
    ensures 1 <= |UintOctets(v)| <= 9 && UintOf(UintOctets(v)) == Ok(v)
  {
    UintFits(v);
    BeRoundTrip(v, UintWidth(v));
  }

  /** Re-writing a number read costs at most one octet more than it took. */
  lemma UintShortest(c: octets)
    requires UintOf(c).Ok?
    ensures 1 <= |c| <= 9 && |UintOctets(UintOf(c).value)| <= |c| + 1
  {
    BeValueBound(c);
    UintWidthExact(BeValue(c), |c| + 1);
  }

  /** A larger number takes no fewer octets. */
  lemma {:induction false} UintWidthMono(v: nat, w: nat)
    requires v <= w
    ensures UintWidth(v) <= UintWidth(w)
  {
    if v > 0x7f { UintWidthMono(v / 256, w / 256); }
  }

  lemma UintSmaller(v: u64, w: u64)
    requires v <= w
    ensures |UintOctets(v)| <= |UintOctets(w)|
  {
    UintWidthMono(v, w);
  }

  method UintSize(v: u64) returns (n: nat)
    ensures n == UintWidth(v)
  {
    n := 1;
    var w: nat := v;
    while w > 0x7f
      invariant n + UintWidth(w) == 1 + UintWidth(v)
    {
      w := w / 256;
      n := n + 1;
    }
  }

  method AppendUint(dst: octets, v: u64) returns (out: octets)
    ensures out == dst + UintOctets(v)
  {
    var n := UintSize(v);
    out := AppendShifts(dst, v, n);
  }

  method DecodeUint(c: octets) returns (r: Result<u64, Error>)
    ensures r == UintOf(c)
  {
    if c == [] {
      return Err(BadValue);
    }
    if |c| > 9 || (|c| == 9 && c[0] != 0) {
      return Err(BadValue);
    }
    var v: nat := 0;
    for i := 0 to |c|
      invariant v == BeValue(c[..i])
    {
      assert c[..i + 1][..i] == c[..i];
      v := 256 * v + c[i] as int;
    }
    assert c[..|c|] == c;
    UintInRange(c);
    return Ok(v);
  }

  // ---- Booleans and bit strings.

  function BoolOctets(b: bool): octets { if b then [0xff] else [0x00] }

  function BoolOf(c: octets): Result<bool, Error>
  {
    if |c| != 1 then Err(BadValue) else Ok(c[0] != 0)
  }

  datatype BitString = BitString(bits: octets, length: nat)

  /** As many octets as the bits need, and no more. */
  predicate PackedBits(bs: BitString) { 8 * |bs.bits| - 8 < bs.length <= 8 * |bs.bits| }

  /** The padding count, cut to an octet, then the packed bits. */
  function BitOctets(bs: BitString): octets
  {
    [((8 * |bs.bits| - bs.length) % 256) as byte] + bs.bits
  }

  function BitsOf(c: octets): (r: Result<BitString, Error>)
    ensures r.Ok? ==> PackedBits(r.value)
  {
    if c == [] then Err(BadValue)
    else
      var pad, bits := c[0] as int, c[1..];
      if pad > 7 || (bits == [] && pad != 0) then Err(BadValue)
      else Ok(BitString(bits, 8 * |bits| - pad))
  }

  lemma BitsRead(bs: BitString)
    requires PackedBits(bs)
    ensures BitsOf(BitOctets(bs)) == Ok(bs)
  {
    assert BitOctets(bs)[1..] == bs.bits;
  }

  // ---- Elements carrying them.

  function IntElem(t: Tag, v: i64): Element { Primitive(t, IntOctets(v)) }
  function UintElem(t: Tag, v: u64): Element { Primitive(t, UintOctets(v)) }
  function BoolElem(t: Tag, b: bool): Element { Primitive(t, BoolOctets(b)) }
}
