/** Object identifiers (src/asn1/oid.rs). */
module Oids {
  import opened Octets
  import opened Ber
  import opened Decoding

  type Oid = seq<u32>

  /** The two arcs the first number stands for. */
  function FirstArcs(v: u32): (o: Oid)
  {
    var first := if v / 40 < 2 then v / 40 else 2;
    [first, v - 40 * first]
  }

  /** The first two arcs as one number; 32 bits wide, so it may wrap. */
  function FirstNumber(o: Oid): u32
    requires |o| >= 2
  {
    FirstProduct(o) % 0x1_0000_0000
  }

  function FirstProduct(o: Oid): int
    requires |o| >= 2
  {
    var a: int, b: int := o[0], o[1];
    40 * a + b
  }

  function ArcOctets(vs: seq<u32>): (s: octets)
  {
    if vs == [] then [] else Base128(vs[0]) + ArcOctets(vs[1..])
  }

  /** Fewer than two arcs encode as nothing. */
  function OidOctets(o: Oid): octets
  {
    if |o| < 2 then [] else ArcOctets([FirstNumber(o)] + o[2..])
  }

  method AppendOid(dst: octets, o: Oid) returns (out: octets)
    ensures out == dst + OidOctets(o)
  {
    if |o| < 2 {
      return dst;
    }
    var vs := [FirstNumber(o)] + o[2..];
    out := dst;
    for i := 0 to |vs|
      invariant out + ArcOctets(vs[i..]) == dst + ArcOctets(vs)
    {
      ghost var was := out;
      out := AppendBase128(out, vs[i]);
      assert vs[i..][1..] == vs[i + 1..];
      assert out + ArcOctets(vs[i + 1..]) == was + ArcOctets(vs[i..]);
    }
    assert vs[|vs|..] == [];
  }

  /** The numbers in `c` from `off` on, `n` octets into one with `acc` read. */
  function ArcsFrom(c: octets, off: nat, n: nat, acc: u32): (r: Result<seq<u32>, Error>)
    requires off <= |c|
    ensures r.Ok? && off < |c| ==> r.value != []
    decreases |c| - off
  {
    if off == |c| then if n != 0 then Err(BadValue) else Ok([])
    else if n >= 5 then Err(BadValue)
    else
      var v := 128 * (acc % 0x200_0000) + (c[off] % 128) as int;
      if c[off] < 128 then
        match ArcsFrom(c, off + 1, 0, 0)
        case Ok(rest) => Ok([v] + rest)
        case Err(e) => Err(e)
      else ArcsFrom(c, off + 1, n + 1, v)
  }

  function OidOf(c: octets): Result<Oid, Error>
  {
    if c == [] then Err(BadValue)
    else
      match ArcsFrom(c, 0, 0, 0)
      case Ok(vs) => Ok(FirstArcs(vs[0]) + vs[1..])
      case Err(e) => Err(e)
  }

  ghost function Prefixed(done: seq<u32>, r: Result<seq<u32>, Error>): Result<seq<u32>, Error>
  {
    match r
    case Ok(vs) => Ok(done + vs)
    case Err(e) => Err(e)
  }

  lemma PrefixedOnto(done: seq<u32>, v: u32, r: Result<seq<u32>, Error>)
    ensures Prefixed([], r) == r
    ensures Prefixed(done, Prefixed([v], r)) == Prefixed(done + [v], r)
  {
    if r.Ok? { assert [] + r.value == r.value && done + ([v] + r.value) == done + [v] + r.value; }
  }

  method DecodeOid(c: octets) returns (r: Result<Oid, Error>)
    ensures r == OidOf(c)
  {
    if c == [] {
      return Err(BadValue);
    }
    var arcs: Oid := [];
    var v: u32, n := 0, 0;
    ghost var done: seq<u32> := [];
    var i := 0;
    PrefixedOnto([], 0, ArcsFrom(c, 0, 0, 0));
    while i < |c|
      invariant i <= |c|
      invariant ArcsFrom(c, 0, 0, 0) == Prefixed(done, ArcsFrom(c, i, n, v))
      invariant arcs == if done == [] then [] else FirstArcs(done[0]) + done[1..]
    {
      if n >= 5 {
        return Err(BadValue);
      }
      v := 128 * (v % 0x200_0000) + (c[i] % 128) as int;
      n := n + 1;
      if c[i] < 128 {
        PrefixedOnto(done, v, ArcsFrom(c, i + 1, 0, 0));
        done := done + [v];
        arcs := arcs + if arcs == [] then FirstArcs(v) else [v];
        v, n := 0, 0;
      }
      i := i + 1;
    }
    if n != 0 {
      return Err(BadValue);
    }
    assert done + [] == done;
    return Ok(arcs);
  }

  // ---- Round trip.

  lemma {:induction false} ArcsAfterNumber(c: octets, off: nat, n: nat, acc: u32)
    requires off <= |c| && HighNumberAt(c, off, n, acc).Got?
    ensures var h := HighNumberAt(c, off, n, acc);
            ArcsFrom(c, off, n, acc) == Prefixed([h.value], ArcsFrom(c, h.next, 0, 0))
    decreases |c| - off
  {
    if c[off] >= 128 {
      ArcsAfterNumber(c, off + 1, n + 1, 128 * (acc % 0x200_0000) + (c[off] % 128) as int);
    }
  }

  lemma {:induction false} ArcsRead(vs: seq<u32>, c: octets, off: nat)
    requires Embedded(ArcOctets(vs), c, off) && off + |ArcOctets(vs)| == |c|
    ensures ArcsFrom(c, off, 0, 0) == Ok(vs)
    decreases |vs|
  {
    if vs != [] {
      var head := Base128(vs[0]);
      EmbeddedParts(head, ArcOctets(vs[1..]), c, off);
      Base128Reads(vs[0]);
      HighNumberShift(head, c, off, 0, 0, 0);
      ArcsAfterNumber(c, off, 0, 0);
      ArcsRead(vs[1..], c, off + |head|);
      assert [vs[0]] + vs[1..] == vs;
    }
  }

  predicate ValidOid(o: Oid)
  {
    |o| >= 2 && o[0] <= 2 && (o[0] < 2 ==> o[1] < 40) && FirstProduct(o) < 0x1_0000_0000
  }

  /** An object identifier reads back exactly when its first two arcs are ones
      a single number can stand for. */
  lemma OidRoundTrip(o: Oid)
    ensures OidOf(OidOctets(o)) == Ok(o) <==> ValidOid(o)
  {
    hide ArcsFrom;
    if |o| >= 2 {
      var vs, c := [FirstNumber(o)] + o[2..], OidOctets(o);
      ArcsRead(vs, c, 0);
      assert vs[1..] == o[2..];
      assert o == [o[0], o[1]] + o[2..];
      var f := FirstArcs(vs[0]);
      assert (f + o[2..])[0] == f[0] && (f + o[2..])[1] == f[1];
    }
  }

  /** 0.40 is written as the one number that reads as 1.0. */
  lemma JoinedArcsExample()
    ensures OidOf(OidOctets([0, 40])) == Ok([1, 0])
  {
    hide ArcsFrom, ArcOctets;
    var o: Oid := [0, 40];
    assert [FirstNumber(o)] + o[2..] == [40];
    ArcsRead([40], ArcOctets([40]), 0);
    ArcsAreSome([40]);
    assert FirstArcs(40) + [] == [1, 0];
  }

  lemma ArcsAreSome(vs: seq<u32>)
    requires vs != []
    ensures ArcOctets(vs) != []
  {
  }
}
