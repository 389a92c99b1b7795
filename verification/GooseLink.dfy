/** A publisher and the tracker that judges its frames, over whole runs. */
module GooseLink {
  import opened Octets
  import opened GooseMessage
  import opened GoosePublisher
  import opened GooseSchedule
  import opened ValueCodec
  import S = GooseSubscriber

  /** What a subscriber receives of a message: all but the members that have
      no encoding. */
  function Received(m: Message): Message { m.(values := StripAll(m.values)) }

  /** A frame of any run, padded or not, is received. */
  lemma FrameIsReceived(cfg: config, steps: seq<Step>, j: nat, padding: octets)
    requires j < |Run(cfg, steps).wire|
    requires var m := Run(cfg, steps).wire[j].msg; WellFormedAll(m.values) && HeightAll(m.values) <= MAX_VALUE_DEPTH
    ensures var m := Run(cfg, steps).wire[j].msg; Parse(Marshal(m) + padding) == Ok(Received(m))
  {
    hide Run, Marshal, Parse, Tatl, SqAt, Count, StripAll;
    FramesFit(cfg, steps, j);
    WireOrder(cfg, steps, j, j);
    RunKeeps(cfg, steps);
    var w := Run(cfg, steps);
    assert Follows(cfg, w.log, w.wire[j].gen - 1);
    MessageRoundTrip(w.wire[j].msg, padding);
  }

  lemma {:induction false} StripKeepsCount(vs: seq<Value>)
    ensures |StripAll(vs)| <= |vs|
    ensures |StripAll(vs)| == |vs| <==> NoValue !in vs
  {
    hide Strip;
    if vs != [] {
      StripKeepsCount(vs[1..]);
      assert vs == [vs[0]] + vs[1..];
    }
  }

  /** A received frame declares more entries than it brings exactly when the
      published values had a member without an encoding. */
  lemma EntriesAgree(cfg: config, steps: seq<Step>, j: nat)
    requires j < |Run(cfg, steps).wire| && |Run(cfg, steps).wire[j].msg.values| <= U32_MAX
    ensures var m := Run(cfg, steps).wire[j].msg;
            m.entries == |Received(m).values| <==> NoValue !in m.values
  {
    hide Run, Marshal, Tatl, SqAt, Count, StripAll;
    WireOrder(cfg, steps, j, j);
    RunKeeps(cfg, steps);
    var w := Run(cfg, steps);
    assert Follows(cfg, w.log, w.wire[j].gen - 1);
    StripKeepsCount(w.wire[j].msg.values);
  }

  /** Arrivals `a` and `b` bring frames `p` and `q` of a run, and nothing else
      from that control block comes between them. */
  ghost predicate Brings(cfg: config, w: World, arrivals: seq<S.Arrival>, a: nat, b: nat, p: nat, q: nat)
  {
    && p < q < |w.wire|
    && S.Consecutive(arrivals, a, b)
    && arrivals[a].msg == Received(w.wire[p].msg) && arrivals[b].msg == Received(w.wire[q].msg)
  }

  // ---- Without loss.

  lemma {:induction false} DenseNext(wire: seq<Frame>, p: nat)
    requires Dense(wire) && p + 1 < |wire|
    ensures wire[p + 1].gen <= wire[p].gen + 1
    decreases |wire|
  {
    if p + 2 < |wire| { DenseNext(wire[..|wire| - 1], p); }
  }

  /** If every send succeeded and frame `p + 1` follows frame `p`, the tracker
      sees no regression, and no gap unless frame `p + 1` is the first of a
      refresh: across both counter wraps, whatever the interleaving. */
  lemma LosslessVerdict(cfg: config, steps: seq<Step>, arrivals: seq<S.Arrival>, a: nat, b: nat, p: nat)
    requires var w := Run(cfg, steps); !w.lost && Brings(cfg, w, arrivals, a, b, p, p + 1)
    ensures var w := Run(cfg, steps);
            var f := w.wire[p + 1];
            var v := S.Verdict(arrivals, b);
            && 1 <= f.gen <= |w.log|
            && !v.stNumRegressed
            && (v.sqNumGap <==> f.gen != w.wire[p].gen && !w.log[f.gen - 1].change)
  {
    hide Run, Tatl, SqAt, WireOk, TasksOk, SlotOk, StateOk, Count, Dense, Fits, S.Verdict;
    var w := Run(cfg, steps);
    RunKeeps(cfg, steps);
    DenseNext(w.wire, p);
    WireOrder(cfg, steps, p, p + 1);
    WireOrder(cfg, steps, p, p);
    S.VerdictOnConsecutive(arrivals, a, b);
    var e, f := w.wire[p], w.wire[p + 1];
    var k := Rank(w.wire, p);
    if e.gen == f.gen {
      SqAtNext(k);
    } else {
      StateNumbers(cfg, steps, f.gen - 1);
      SqAtZero();
    }
  }

  lemma SqAtNext(k: nat)
    ensures SqAt(k + 1) == NextCounter(SqAt(k))
  {
  }

  lemma SqAtZero()
    ensures SqAt(0) == 0
  {
  }

  /** A frame that arrives within the interval after the one before it is not
      stale, as long as the interval can be told in 32 bits of milliseconds. */
  lemma TimelyVerdict(cfg: config, steps: seq<Step>, arrivals: seq<S.Arrival>, a: nat, b: nat, p: nat, q: nat)
    requires var w := Run(cfg, steps); Brings(cfg, w, arrivals, a, b, p, q)
    requires var interval := IntervalAfter(cfg, Rank(Run(cfg, steps).wire, p));
             S.Elapsed(arrivals[a].at, arrivals[b].at) <= interval <= U32_MAX * MILLISECOND
    ensures !S.Verdict(arrivals, b).stale
  {
    hide Run, Tatl, SqAt, Count, S.Verdict, IntervalAfter;
    WireOrder(cfg, steps, p, p);
    S.VerdictOnConsecutive(arrivals, a, b);
    TatlCovers(cfg, Rank(Run(cfg, steps).wire, p));
  }

  /** With a schedule made from MinTime and MaxTime, no frame that arrives
      within its interval is stale. */
  lemma SclTimelyVerdict(cfg: config, steps: seq<Step>, arrivals: seq<S.Arrival>, a: nat, b: nat, p: nat, q: nat)
    requires Sound(cfg.retrans)
    requires Brings(cfg, Run(cfg, steps), arrivals, a, b, p, q)
    requires S.Elapsed(arrivals[a].at, arrivals[b].at) <= IntervalAfter(cfg, Rank(Run(cfg, steps).wire, p))
    ensures !S.Verdict(arrivals, b).stale
  {
    hide Run, S.Verdict, Rank;
    TimelyVerdict(cfg, steps, arrivals, a, b, p, q);
  }

  // ---- With loss.

  /** No refresh after the first announcement. */
  ghost predicate RefreshFree(w: World) { forall g :: 1 <= g < |w.log| ==> w.log[g].change }

  lemma {:induction false} StNumIsGeneration(cfg: config, steps: seq<Step>, g: nat)
    requires var w := Run(cfg, steps); RefreshFree(w) && g < |w.log| <= U32_MAX
    ensures Run(cfg, steps).log[g].msg.stNum == g + 1
    decreases g
  {
    hide Run;
    StateNumbers(cfg, steps, g);
    if g > 0 { StNumIsGeneration(cfg, steps, g - 1); }
  }

  /** Two transmissions of a state are told apart unless a whole turn of the
      counter lies between them. */
  lemma SqAtGap(k: nat, lost: nat)
    ensures SqAt(k + 1 + lost) == NextCounter(SqAt(k)) <==> lost % U32_MAX == 0
  {
    SqAtClosed(k);
    SqAtClosed(k + 1);
    SqAtClosed(k + 1 + lost);
    SqAtNext(k);
    TurnOfCounter(k, lost);
  }

  lemma TurnOfCounter(k: nat, lost: nat)
    ensures (k + lost) % U32_MAX == k % U32_MAX <==> lost % U32_MAX == 0
  {
  }

  /** Whatever frames are lost between two that arrive, in a run without
      refreshes: within one state a gap is seen exactly when the number lost is
      no multiple of 2^32 - 1; at a new state, exactly when the frame that
      announced it is among the lost. Loss never looks like a regression. */
  lemma LossyVerdict(cfg: config, steps: seq<Step>, arrivals: seq<S.Arrival>, a: nat, b: nat, p: nat, q: nat)
    requires var w := Run(cfg, steps); RefreshFree(w) && |w.log| <= U32_MAX && Brings(cfg, w, arrivals, a, b, p, q)
    ensures var w := Run(cfg, steps);
            var v := S.Verdict(arrivals, b);
            && !v.stNumRegressed
            && (w.wire[p].gen == w.wire[q].gen ==> (v.sqNumGap <==> (q - p - 1) % U32_MAX != 0))
            && (w.wire[p].gen != w.wire[q].gen ==> (v.sqNumGap <==> AnnouncementMissed(w.wire, p, q)))
  {
    hide Run, Tatl, SqAt, Count, S.Verdict;
    var w := Run(cfg, steps);
    WireOrder(cfg, steps, p, q);
    WireOrder(cfg, steps, p, p);
    StNumIsGeneration(cfg, steps, w.wire[p].gen - 1);
    StNumIsGeneration(cfg, steps, w.wire[q].gen - 1);
    S.VerdictOnConsecutive(arrivals, a, b);
    if w.wire[p].gen == w.wire[q].gen {
      SqAtGap(Rank(w.wire, p), q - p - 1);
    } else {
      SqAtIsZero(Rank(w.wire, q));
      MissedMeansRank(cfg, steps, p, q);
    }
  }

  lemma SqAtIsZero(k: nat)
    ensures SqAt(k) == 0 <==> k == 0
  {
    SqAtClosed(k);
  }

  /** The announcing frame of the generation of frame `q` went out between
      frames `p` and `q`. */
  ghost predicate AnnouncementMissed(wire: seq<Frame>, p: nat, q: nat)
    requires p < q < |wire|
  {
    exists k :: p < k < q && wire[k].gen == wire[q].gen && Rank(wire, k) == 0
  }

  lemma MissedMeansRank(cfg: config, steps: seq<Step>, p: nat, q: nat)
    requires var wire := Run(cfg, steps).wire; p < q < |wire| && wire[p].gen != wire[q].gen
    ensures AnnouncementMissed(Run(cfg, steps).wire, p, q) <==> Rank(Run(cfg, steps).wire, q) != 0
  {
    hide Run, Tatl, SqAt, Count;
    var wire := Run(cfg, steps).wire;
    if AnnouncementMissed(wire, p, q) {
      var k :| p < k < q && wire[k].gen == wire[q].gen && Rank(wire, k) == 0;
      WireOrder(cfg, steps, k, q);
    }
    if Rank(wire, q) != 0 {
      var k := FirstFrame(cfg, steps, p, q);
    }
  }

  /** Going back from frame `q` over its generation ends at its first frame. */
  lemma {:induction false} FirstFrame(cfg: config, steps: seq<Step>, p: nat, q: nat) returns (k: nat)
    requires var wire := Run(cfg, steps).wire; p < q < |wire| && wire[p].gen != wire[q].gen
    ensures var wire := Run(cfg, steps).wire; p < k <= q && wire[k].gen == wire[q].gen && Rank(wire, k) == 0
    decreases q
  {
    hide Run, Tatl, SqAt, Count;
    var wire := Run(cfg, steps).wire;
    WireOrder(cfg, steps, q, q);
    if wire[q - 1].gen != wire[q].gen {
      k := q;
    } else {
      k := FirstFrame(cfg, steps, p, q - 1);
    }
  }
}
