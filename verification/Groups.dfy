/** The TEKs a key server holds for one group (src/gdoi/server.rs). Times are
    nanoseconds on one clock. */
module Groups {
  import opened Octets
  import opened Isakmp
  import opened Oids
  import opened Teks

  datatype GroupTek = GroupTek(tek: Tek, activates: nat, expires: Option<nat>)

  /** What `add` and `remove` keep of a group. */
  predicate GroupOk(teks: seq<GroupTek>)
  {
    && (forall i :: 0 <= i < |teks| ==> CheckPolicy(teks[i].tek) && (teks[i].expires.Some? <==> teks[i].tek.lifetime > 0))
    && (forall i, j :: 0 <= i < j < |teks| ==> teks[i].tek.spi != teks[j].tek.spi)
  }

  predicate IsLive(x: GroupTek, now: nat) { x.expires.None? || now < x.expires.value }

  function Live(teks: seq<GroupTek>, now: nat): seq<GroupTek>
  {
    if teks == [] then []
    else if IsLive(teks[0], now) then [teks[0]] + Live(teks[1..], now)
    else Live(teks[1..], now)
  }

  function Without(teks: seq<GroupTek>, spi: u32): seq<GroupTek>
  {
    if teks == [] then []
    else if teks[0].tek.spi != spi then [teks[0]] + Without(teks[1..], spi)
    else Without(teks[1..], spi)
  }

  /** A TEK with the delay and lifetime it has left. */
  function Remaining(x: GroupTek, now: nat): Tek
    requires IsLive(x, now)
  {
    x.tek.(delay := if x.activates > now then x.activates - now else 0,
           lifetime := if x.expires.None? then 0 else x.expires.value - now)
  }

  function AllRemaining(teks: seq<GroupTek>, now: nat): (r: seq<Tek>)
    requires forall i :: 0 <= i < |teks| ==> IsLive(teks[i], now)
    ensures |r| == |teks| && forall i :: 0 <= i < |r| ==> r[i] == Remaining(teks[i], now)
  {
    seq(|teks|, i requires 0 <= i < |teks| => Remaining(teks[i], now))
  }

  function Insert(t: Tek, sorted: seq<Tek>): seq<Tek>
  {
    if sorted == [] || t.delay <= sorted[0].delay then [t] + sorted else [sorted[0]] + Insert(t, sorted[1..])
  }

  /** A stable sort by activation delay. */
  function SortByDelay(ts: seq<Tek>): seq<Tek>
  {
    if ts == [] then [] else Insert(ts[0], SortByDelay(ts[1..]))
  }

  function Snapshot(teks: seq<GroupTek>, now: nat): seq<Tek>
  {
    LiveIsLive(teks, now);
    SortByDelay(AllRemaining(Live(teks, now), now))
  }

  lemma {:induction false} LiveIsLive(teks: seq<GroupTek>, now: nat)
    ensures forall i :: 0 <= i < |Live(teks, now)| ==> IsLive(Live(teks, now)[i], now)
    ensures forall x :: x in Live(teks, now) <==> x in teks && IsLive(x, now)
  {
    if teks != [] {
      LiveIsLive(teks[1..], now);
      assert teks == [teks[0]] + teks[1..];
    }
  }

  class Group {
    var teks: seq<GroupTek>

    ghost predicate Valid()
      reads this
    {
      GroupOk(teks)
    }

    constructor ()
      ensures Valid() && teks == []
    {
      teks := [];
    }

    /** Refused, and nothing changed, on a bad policy or an SPI in use. */
    method Add(t: Tek, now: nat) returns (ok: bool)
      requires Valid()
      modifies this
      ensures Valid()
      ensures ok <==> CheckPolicy(t) && forall i :: 0 <= i < |old(teks)| ==> old(teks)[i].tek.spi != t.spi
      ensures teks == if ok then old(teks) + [GroupTek(t, now + t.delay, if t.lifetime == 0 then None else Some(now + t.lifetime))]
                      else old(teks)
    {
      hide CheckPolicy;
      if !CheckPolicy(t) {
        return false;
      }
      for i := 0 to |teks|
        invariant forall k :: 0 <= k < i ==> teks[k].tek.spi != t.spi
      {
        if teks[i].tek.spi == t.spi {
          return false;
        }
      }
      teks := teks + [GroupTek(t, now + t.delay, if t.lifetime == 0 then None else Some(now + t.lifetime))];
      return true;
    }

    method Remove(spi: u32)
      requires Valid()
      modifies this
      ensures Valid() && teks == Without(old(teks), spi)
      ensures forall x :: x in teks <==> x in old(teks) && x.tek.spi != spi
    {
      WithoutKeeps(teks, spi);
      teks := Without(teks, spi);
    }

    /** The TEKs still valid, soonest activation first; expired ones go. */
    method TakeSnapshot(now: nat) returns (out: seq<Tek>)
      requires Valid()
      modifies this
      ensures Valid() && teks == Live(old(teks), now) && out == Snapshot(old(teks), now)
    {
      hide Live, SortByDelay, CheckPolicy;
      LiveIsLive(teks, now);
      LiveKeeps(teks, now);
      teks := Live(teks, now);
      out := SortTeks(AllRemaining(teks, now));
    }
  }

  method SortTeks(ts: seq<Tek>) returns (out: seq<Tek>)
    ensures out == SortByDelay(ts)
  {
    hide Insert;
    out := [];
    var i := |ts|;
    while i > 0
      invariant 0 <= i <= |ts|
      invariant out == SortByDelay(ts[i..])
    {
      i := i - 1;
      assert ts[i..][1..] == ts[i + 1..];
      out := InsertByDelay(ts[i], out);
    }
    assert ts[0..] == ts;
  }

  method InsertByDelay(t: Tek, sorted: seq<Tek>) returns (r: seq<Tek>)
    ensures r == Insert(t, sorted)
  {
    hide Insert;
    var k := 0;
    assert sorted[0..] == sorted && sorted[..0] + Insert(t, sorted) == Insert(t, sorted);
    while k < |sorted| && sorted[k].delay < t.delay
      invariant 0 <= k <= |sorted|
      invariant Insert(t, sorted) == sorted[..k] + Insert(t, sorted[k..])
    {
      InsertPasses(t, sorted, k);
      k := k + 1;
    }
    InsertStops(t, sorted, k);
    r := sorted[..k] + [t] + sorted[k..];
  }

  lemma InsertPasses(t: Tek, sorted: seq<Tek>, k: nat)
    requires k < |sorted| && sorted[k].delay < t.delay
    ensures sorted[..k] + Insert(t, sorted[k..]) == sorted[..k + 1] + Insert(t, sorted[k + 1..])
  {
    var rest := Insert(t, sorted[k + 1..]);
    assert sorted[k..][1..] == sorted[k + 1..];
    assert Insert(t, sorted[k..]) == [sorted[k]] + rest;
    assert sorted[..k + 1] == sorted[..k] + [sorted[k]];
  }

  lemma InsertStops(t: Tek, sorted: seq<Tek>, k: nat)
    requires k <= |sorted| && (k == |sorted| || t.delay <= sorted[k].delay)
    ensures sorted[..k] + Insert(t, sorted[k..]) == sorted[..k] + [t] + sorted[k..]
  {
    assert Insert(t, sorted[k..]) == [t] + sorted[k..];
  }

  lemma {:induction false} WithoutKeeps(teks: seq<GroupTek>, spi: u32)
    requires GroupOk(teks)
    ensures GroupOk(Without(teks, spi))
    ensures forall x :: x in Without(teks, spi) <==> x in teks && x.tek.spi != spi
  {
    hide CheckPolicy, GroupOk;
    if teks == [] {
      NoneOk();
    } else {
      RestOk(teks);
      WithoutKeeps(teks[1..], spi);
      assert teks == [teks[0]] + teks[1..];
      FirstJoins(teks, Without(teks[1..], spi));
    }
  }

  lemma {:induction false} LiveKeeps(teks: seq<GroupTek>, now: nat)
    requires GroupOk(teks)
    ensures GroupOk(Live(teks, now))
    ensures |Live(teks, now)| <= |teks|
  {
    hide CheckPolicy, Live, GroupOk;
    LiveStep(teks, now);
    if teks == [] {
      NoneOk();
    } else {
      RestOk(teks);
      LiveKeeps(teks[1..], now);
      LiveIsLive(teks[1..], now);
      FirstJoins(teks, Live(teks[1..], now));
    }
  }

  lemma LiveStep(teks: seq<GroupTek>, now: nat)
    ensures Live(teks, now) ==
            if teks == [] then []
            else if IsLive(teks[0], now) then [teks[0]] + Live(teks[1..], now)
            else Live(teks[1..], now)
  {
  }

  lemma NoneOk()
    ensures GroupOk([])
  {
  }

  lemma RestOk(teks: seq<GroupTek>)
    requires GroupOk(teks) && teks != []
    ensures GroupOk(teks[1..])
  {
    hide CheckPolicy;
  }

  /** The first of a group still fits in front of any of the others. */
  lemma FirstJoins(teks: seq<GroupTek>, rest: seq<GroupTek>)
    requires GroupOk(teks) && teks != [] && GroupOk(rest) && forall x :: x in rest ==> x in teks[1..]
    ensures GroupOk([teks[0]] + rest)
  {
    hide CheckPolicy;
    forall j | 0 <= j < |rest| ensures rest[j].tek.spi != teks[0].tek.spi {
      assert rest[j] in rest;
      var i :| 0 <= i < |teks| - 1 && teks[1..][i] == rest[j];
    }
  }

  // ---- What a snapshot is.

  predicate SortedByDelay(ts: seq<Tek>) { forall i, j :: 0 <= i < j < |ts| ==> ts[i].delay <= ts[j].delay }

  lemma {:induction false} InsertMembers(t: Tek, sorted: seq<Tek>)
    ensures multiset(Insert(t, sorted)) == multiset(sorted) + multiset{t} && |Insert(t, sorted)| == |sorted| + 1
  {
    if sorted != [] && t.delay > sorted[0].delay {
      InsertMembers(t, sorted[1..]);
      assert sorted == [sorted[0]] + sorted[1..];
    }
  }

  lemma InsertMember(t: Tek, sorted: seq<Tek>, j: nat)
    requires j < |Insert(t, sorted)|
    ensures Insert(t, sorted)[j] == t || Insert(t, sorted)[j] in sorted
  {
    hide Insert;
    InsertMembers(t, sorted);
    assert Insert(t, sorted)[j] in multiset(Insert(t, sorted));
  }

  lemma FirstIsLeast(first: Tek, rest: seq<Tek>)
    requires SortedByDelay(rest) && forall j :: 0 <= j < |rest| ==> first.delay <= rest[j].delay
    ensures SortedByDelay([first] + rest)
  {
  }

  lemma {:induction false} InsertSorts(t: Tek, sorted: seq<Tek>)
    requires SortedByDelay(sorted)
    ensures SortedByDelay(Insert(t, sorted))
  {
    if sorted != [] && t.delay > sorted[0].delay {
      InsertSorts(t, sorted[1..]);
      var r := Insert(t, sorted[1..]);
      forall j | 0 <= j < |r| ensures sorted[0].delay <= r[j].delay { InsertMember(t, sorted[1..], j); }
      FirstIsLeast(sorted[0], r);
    }
  }

  lemma {:induction false} SortSorts(ts: seq<Tek>)
    ensures SortedByDelay(SortByDelay(ts)) && multiset(SortByDelay(ts)) == multiset(ts) && |SortByDelay(ts)| == |ts|
  {
    if ts != [] {
      SortSorts(ts[1..]);
      InsertSorts(ts[0], SortByDelay(ts[1..]));
      InsertMembers(ts[0], SortByDelay(ts[1..]));
      assert ts == [ts[0]] + ts[1..];
    }
  }

  lemma DistinctByMultiset(a: seq<Tek>, b: seq<Tek>)
    requires DistinctSpis(a) && multiset(a) == multiset(b)
    ensures DistinctSpis(b)
  {
    forall i, j | 0 <= i < j < |b| ensures b[i].spi != b[j].spi {
      if b[i].spi == b[j].spi {
        assert b[i] in multiset(a) && b[j] in multiset(a);
        var p :| 0 <= p < |a| && a[p] == b[i];
        var q :| 0 <= q < |a| && a[q] == b[j];
        assert p == q;
        Twice(b, i, j);
        Once(a, p);
      }
    }
  }

  lemma Twice(b: seq<Tek>, i: nat, j: nat)
    requires i < j < |b| && b[i] == b[j]
    ensures multiset(b)[b[i]] >= 2
  {
    assert b == b[..j] + [b[j]] + b[j + 1..];
    assert b[i] in b[..j];
  }

  lemma Once(a: seq<Tek>, p: nat)
    requires DistinctSpis(a) && p < |a|
    ensures multiset(a)[a[p]] == 1
  {
    assert a == a[..p] + [a[p]] + a[p + 1..];
    assert a[p] !in a[..p] && a[p] !in a[p + 1..];
  }

  /** A TEK whose payload has room for a delay and an assurance attribute. */
  predicate RoomFor(t: Tek)
  {
    && ValidOid(t.oid)
    && OidAndSelector(t.oid, t.selector).Ok?
    && 4 + 1 + |OidAndSelector(t.oid, t.selector).value| + 12 + 12 < 0x1_0000
  }

  lemma SatBodyFits(t: Tek)
    requires RoomFor(t)
    ensures SatBody(t).Ok? && |SatBody(t).value| <= 1 + |OidAndSelector(t.oid, t.selector).value| + 12 + 12
  {
    hide OidAndSelector, ValidOid, Seconds, EncodeAttrs;
    SatAttrsLength(t);
  }

  lemma SatAttrsLength(t: Tek)
    ensures |EncodeAttrs(SatAttrs(t))| <= 12
  {
    hide Seconds, U16Octets, U32Octets;
    var attrs := SatAttrs(t);
    assert EncodeAttrs([]) == [];
    if |attrs| == 2 {
      var last := attrs[1..];
      assert last[1..] == [];
      assert EncodeAttrs(last) == AttrOctets(last[0]) + EncodeAttrs(last[1..]);
    } else if |attrs| == 1 {
      assert attrs[1..] == [];
    }
  }

  /** The TEKs handed out at a time are those not yet expired, each once, with
      what they have left, in order of activation; one that expires has time
      left; and a registration can carry them. */
  lemma SnapshotMeans(teks: seq<GroupTek>, now: nat)
    requires GroupOk(teks)
    ensures var out := Snapshot(teks, now);
            && SortedByDelay(out) && DistinctSpis(out) && AllAllowed(out)
            && |out| <= |teks|
            && (forall t :: t in out <==> exists x :: x in teks && IsLive(x, now) && t == Remaining(x, now))
            && (forall x :: x in teks && IsLive(x, now) && x.tek.lifetime > 0 ==> Remaining(x, now).lifetime > 0)
    ensures (|teks| <= MAX_PAYLOADS && Snapshot(teks, now) != [] &&
             forall i :: 0 <= i < |teks| ==> RoomFor(teks[i].tek)) ==> Holdable(Snapshot(teks, now))
  {
    hide CheckPolicy, RoomFor, SatBody, ValidOid, SortByDelay, Live;
    LiveIsLive(teks, now);
    LiveKeeps(teks, now);
    var live := Live(teks, now);
    var ts := AllRemaining(live, now);
    var out := Snapshot(teks, now);
    SortSorts(ts);
    DistinctByMultiset(ts, out);
    forall t ensures t in out <==> exists x :: x in teks && IsLive(x, now) && t == Remaining(x, now) {
      SnapshotMembers(teks, now, t);
    }
    forall i | 0 <= i < |out| ensures CheckPolicy(out[i]) {
      assert out[i] in out;
      var x :| x in teks && IsLive(x, now) && out[i] == Remaining(x, now);
      PolicyKeeps(x, now);
    }
    if forall i :: 0 <= i < |teks| ==> RoomFor(teks[i].tek) {
      forall i | 0 <= i < |out|
        ensures ValidOid(out[i].oid) && SatBody(out[i]).Ok? && 4 + |SatBody(out[i]).value| < 0x1_0000
      {
        assert out[i] in out;
        var x :| x in teks && IsLive(x, now) && out[i] == Remaining(x, now);
        RoomKeeps(x, now);
      }
    }
  }

  lemma PolicyKeeps(x: GroupTek, now: nat)
    requires IsLive(x, now) && CheckPolicy(x.tek)
    ensures CheckPolicy(Remaining(x, now))
  {
  }

  lemma RoomKeeps(x: GroupTek, now: nat)
    requires IsLive(x, now) && RoomFor(x.tek)
    ensures var t := Remaining(x, now);
            ValidOid(t.oid) && SatBody(t).Ok? && 4 + |SatBody(t).value| < 0x1_0000
  {
    hide OidAndSelector, ValidOid, SatBody;
    SatBodyFits(Remaining(x, now));
  }

  lemma SnapshotMembers(teks: seq<GroupTek>, now: nat, t: Tek)
    requires GroupOk(teks)
    ensures t in Snapshot(teks, now) <==> exists x :: x in teks && IsLive(x, now) && t == Remaining(x, now)
  {
    hide CheckPolicy, SortByDelay, Live;
    LiveIsLive(teks, now);
    var live := Live(teks, now);
    var ts := AllRemaining(live, now);
    SortSorts(ts);
    assert t in Snapshot(teks, now) <==> t in multiset(ts);
    if t in ts {
      var i :| 0 <= i < |ts| && ts[i] == t;
      assert live[i] in live;
    }
    if x :| x in teks && IsLive(x, now) && t == Remaining(x, now) {
      assert x in live;
      var i :| 0 <= i < |live| && live[i] == x;
      assert ts[i] == t;
    }
  }
}
