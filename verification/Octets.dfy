/** Fixed-width integers as the source's machine words hold them, octet
    strings, and the big-endian conversions every codec here shares. */
module Octets {

  newtype byte = x: int | 0 <= x < 0x100
  type u16 = x: int | 0 <= x < 0x1_0000
  type u32 = x: int | 0 <= x < 0x1_0000_0000
  type u64 = x: int | 0 <= x < 0x1_0000_0000_0000_0000
  type i32 = x: int | -0x8000_0000 <= x < 0x8000_0000
  type i64 = x: int | -0x8000_0000_0000_0000 <= x < 0x8000_0000_0000_0000

  type octets = seq<byte>

  const U32_MAX: u32 := 0xffff_ffff

  datatype Option<+T> = None | Some(value: T)

  datatype Result<+T, +E> = Ok(value: T) | Err(error: E)

  function Pow256(n: nat): (p: nat)
    ensures p >= 1
  {
    if n == 0 then 1 else 256 * Pow256(n - 1)
  }

  /** The number an octet string denotes, most significant octet first. */
  function BeValue(s: octets): (v: nat)
  {
    if s == [] then 0 else 256 * BeValue(s[..|s| - 1]) + s[|s| - 1] as int
  }

  /** The low `n` octets of `v`, most significant first. On a negative `v` these
      are its two's-complement octets: `/` and `%` round downwards. */
  function BeOctets(v: int, n: nat): (s: octets)
    ensures |s| == n
    decreases n
  {
    if n == 0 then [] else BeOctets(v / 256, n - 1) + [(v % 256) as byte]
  }

  lemma {:induction false} BeValueBound(s: octets)
    ensures BeValue(s) < Pow256(|s|)
  {
    if s != [] { BeValueBound(s[..|s| - 1]); }
  }

  /** Writing a number that fits and reading it back gives the number. */
  lemma {:induction false} BeRoundTrip(v: nat, n: nat)
    requires v < Pow256(n)
    ensures BeValue(BeOctets(v, n)) == v
  {
    if n != 0 {
      BeRoundTrip(v / 256, n - 1);
      assert BeOctets(v, n)[..n - 1] == BeOctets(v / 256, n - 1);
    }
  }

  /** Reading octets and writing the number back gives the octets. */
  lemma {:induction false} BeOctetsOfValue(s: octets)
    ensures BeOctets(BeValue(s), |s|) == s
  {
    if s != [] {
      var init := s[..|s| - 1];
      BeOctetsOfValue(init);
      assert s == init + [s[|s| - 1]];
    }
  }

  lemma Assoc(a: octets, b: octets, c: octets, d: octets)
    ensures a + b + c + d == a + (b + c + d)
  {
  }

  lemma Joined(a: octets, b: octets, c: octets)
    ensures a + b + c == a + (b + c)
  {
  }

  function U16Octets(v: u16): (s: octets)
    ensures |s| == 2
  {
    BeOctets(v, 2)
  }

  function U16Of(hi: byte, lo: byte): u16 { 256 * hi as int + lo as int }

  function U32Octets(v: u32): (s: octets)
    ensures |s| == 4
  {
    BeOctets(v, 4)
  }

  function U32Of(a: byte, b: byte, c: byte, d: byte): u32
  {
    BeValueBound([a, b, c, d]);
    Words();
    BeValue([a, b, c, d])
  }

  lemma Words()
    ensures Pow256(4) == 0x1_0000_0000
  {
    assert Pow256(2) == 0x1_0000;
  }

  /** Two octets written are read as the number, by either reader. */
  lemma U16RoundTrip(v: u16)
    ensures var s := U16Octets(v); U16Of(s[0], s[1]) == v && BeValue(s) == v
  {
    var high := BeOctets(v / 256, 1);
    assert high == [(v / 256) as byte] && U16Octets(v) == high + [(v % 256) as byte];
    assert U16Octets(v)[..1] == high && high[..0] == [];
    assert BeValue(high) == v / 256;
  }

  lemma U32RoundTrip(v: u32)
    ensures var s := U32Octets(v); U32Of(s[0], s[1], s[2], s[3]) == v
  {
    hide BeOctets, BeValue, Pow256;
    var s := U32Octets(v);
    assert [s[0], s[1], s[2], s[3]] == s;
    Words();
    BeRoundTrip(v, 4);
  }
}
