/** Sequence tracking and supervision of GOOSE streams (src/goose/subscriber.rs).
    Times are in nanoseconds. */
module GooseSubscriber {
  import opened Octets
  import opened GooseMessage

  const MILLISECOND: nat := 1_000_000

  // ---- Sequence tracking.

  datatype SeqState = SeqState(stNum: u32, sqNum: u32, tatl: nat, arrival: nat)

  datatype Anomalies = Anomalies(stNumRegressed: bool, sqNumGap: bool, stale: bool)

  const REGULAR := Anomalies(false, false, false)

  function Elapsed(since: nat, now: nat): nat { if now < since then 0 else now - since }

  /** What is irregular about a message, given the one before it from the same
      control block. Both counters go from their greatest value to 1. */
  function Judge(previous: Option<SeqState>, m: Message, now: nat): Anomalies
  {
    match previous
    case None => REGULAR
    case Some(st) =>
      var next := if st.sqNum == U32_MAX then 1 else st.sqNum + 1;
      Anomalies(
        m.stNum < st.stNum && !(st.stNum == U32_MAX && m.stNum == 1),
        if m.stNum == st.stNum then m.sqNum != next else m.sqNum != 0,
        st.tatl != 0 && Elapsed(st.arrival, now) > st.tatl)
  }

  function Seen(m: Message, now: nat): SeqState { SeqState(m.stNum, m.sqNum, m.tatl * MILLISECOND, now) }

  function Lookup<K, V>(m: map<K, V>, k: K): Option<V> { if k in m then Some(m[k]) else None }

  class SequenceTracker {
    var states: map<octets, SeqState>

    constructor ()
      ensures states == map[]
    {
      states := map[];
    }

    method Observe(m: Message, now: nat) returns (out: Anomalies)
      modifies this
      ensures out == Judge(Lookup(old(states), m.goCbRef), m, now)
      ensures states == old(states)[m.goCbRef := Seen(m, now)]
    {
      var tatl := m.tatl * MILLISECOND;
      out := REGULAR;
      if m.goCbRef in states {
        var st := states[m.goCbRef];
        var wrapped := st.stNum == U32_MAX && m.stNum == 1;
        if m.stNum < st.stNum && !wrapped {
          out := out.(stNumRegressed := true);
        }
        if m.stNum == st.stNum {
          var next := (st.sqNum + 1) % 0x1_0000_0000;
          out := out.(sqNumGap := m.sqNum != if next < 1 then 1 else next);
        } else {
          out := out.(sqNumGap := m.sqNum != 0);
        }
        out := out.(stale := st.tatl != 0 && Elapsed(st.arrival, now) > st.tatl);
      }
      states := states[m.goCbRef := SeqState(m.stNum, m.sqNum, tatl, now)];
    }

    method ObserveAll(arrivals: seq<Arrival>) returns (out: seq<Anomalies>)
      requires states == map[]
      modifies this
      ensures |out| == |arrivals| && forall i :: 0 <= i < |out| ==> out[i] == Verdict(arrivals, i)
      ensures states == Tracked(arrivals)
    {
      out := [];
      for i := 0 to |arrivals|
        invariant states == Tracked(arrivals[..i])
        invariant |out| == i && forall k :: 0 <= k < i ==> out[k] == Verdict(arrivals, k)
      {
        var a := Observe(arrivals[i].msg, arrivals[i].at);
        out := out + [a];
        assert arrivals[..i + 1][..i] == arrivals[..i];
      }
      assert arrivals[..|arrivals|] == arrivals;
    }
  }

  datatype Arrival = Arrival(msg: Message, at: nat)

  function Tracked(arrivals: seq<Arrival>): map<octets, SeqState>
  {
    if arrivals == [] then map[]
    else
      var a := arrivals[|arrivals| - 1];
      Tracked(arrivals[..|arrivals| - 1])[a.msg.goCbRef := Seen(a.msg, a.at)]
  }

  /** The verdict on arrival `i` of a stream of messages from any control blocks. */
  function Verdict(arrivals: seq<Arrival>, i: nat): Anomalies
    requires i < |arrivals|
  {
    Judge(Lookup(Tracked(arrivals[..i]), arrivals[i].msg.goCbRef), arrivals[i].msg, arrivals[i].at)
  }

  /** `a` and `b` are arrivals of one control block with none of it in between. */
  ghost predicate Consecutive(arrivals: seq<Arrival>, a: nat, b: nat)
  {
    && a < b < |arrivals|
    && arrivals[a].msg.goCbRef == arrivals[b].msg.goCbRef
    && forall k :: a < k < b ==> arrivals[k].msg.goCbRef != arrivals[b].msg.goCbRef
  }

  /** A verdict depends on the previous arrival of the same control block
      alone: other streams do not disturb it. */
  lemma VerdictOnConsecutive(arrivals: seq<Arrival>, a: nat, b: nat)
    requires Consecutive(arrivals, a, b)
    ensures Verdict(arrivals, b)
         == Judge(Some(Seen(arrivals[a].msg, arrivals[a].at)), arrivals[b].msg, arrivals[b].at)
  {
    StateFrom(arrivals[..b], a);
  }

  lemma {:induction false} StateFrom(arrivals: seq<Arrival>, a: nat)
    requires a < |arrivals|
    requires forall k :: a < k < |arrivals| ==> arrivals[k].msg.goCbRef != arrivals[a].msg.goCbRef
    ensures Lookup(Tracked(arrivals), arrivals[a].msg.goCbRef) == Some(Seen(arrivals[a].msg, arrivals[a].at))
    decreases |arrivals|
  {
    if a < |arrivals| - 1 { StateFrom(arrivals[..|arrivals| - 1], a); }
  }

  /** The first message of a control block is never irregular. */
  lemma {:induction false} FirstIsRegular(arrivals: seq<Arrival>, b: nat)
    requires b < |arrivals|
    requires forall k :: 0 <= k < b ==> arrivals[k].msg.goCbRef != arrivals[b].msg.goCbRef
    ensures Verdict(arrivals, b) == REGULAR
  {
    Untracked(arrivals[..b], arrivals[b].msg.goCbRef);
  }

  lemma {:induction false} Untracked(arrivals: seq<Arrival>, ref: octets)
    requires forall k :: 0 <= k < |arrivals| ==> arrivals[k].msg.goCbRef != ref
    ensures ref !in Tracked(arrivals)
  {
    if arrivals != [] { Untracked(arrivals[..|arrivals| - 1], ref); }
  }

  // ---- Supervision of timeAllowedToLive.

  datatype Deadline = Deadline(at: nat, fired: bool)

  type deadlines = map<octets, Deadline>

  predicate IsDue(d: Deadline, now: nat) { !d.fired && d.at <= now }

  function Marked(blocks: deadlines, now: nat): deadlines
  {
    map r | r in blocks :: if IsDue(blocks[r], now) then Deadline(blocks[r].at, true) else blocks[r]
  }

  class Supervision {
    var blocks: deadlines

    constructor ()
      ensures blocks == map[]
    {
      blocks := map[];
    }

    method Arrived(ref: octets, tatl: nat, now: nat)
      modifies this
      ensures blocks == AfterArrival(old(blocks), ref, tatl, now)
    {
      if tatl == 0 {
        return;
      }
      blocks := blocks[ref := Deadline(now + tatl, false)];
    }

    /** One turn of `run` under the lock: the control blocks to report. */
    method Scan(now: nat) returns (due: seq<octets>)
      modifies this
      ensures blocks == Marked(old(blocks), now)
      ensures forall r :: r in due <==> r in old(blocks) && IsDue(old(blocks)[r], now)
      ensures forall i, j :: 0 <= i < j < |due| ==> due[i] != due[j]
    {
      due := [];
      ghost var was := blocks;
      var rest := blocks.Keys;
      while rest != {}
        invariant rest <= was.Keys == blocks.Keys
        invariant forall r :: r in rest ==> blocks[r] == was[r]
        invariant forall r :: r in was.Keys - rest ==> blocks[r] == Marked(was, now)[r]
        invariant forall r :: r in due <==> r in was.Keys - rest && IsDue(was[r], now)
        invariant forall i, j :: 0 <= i < j < |due| ==> due[i] != due[j]
        decreases |rest|
      {
        var r :| r in rest;
        if !blocks[r].fired && blocks[r].at <= now {
          blocks := blocks[r := Deadline(blocks[r].at, true)];
          due := due + [r];
        }
        rest := rest - {r};
      }
    }

    /** The wake-up the watcher sleeps until: the earliest unreported deadline. */
    method NextWake() returns (next: Option<nat>)
      ensures next.None? <==> forall r :: r in blocks ==> blocks[r].fired
      ensures next.Some? ==>
                && (exists r :: r in blocks && !blocks[r].fired && blocks[r].at == next.value)
                && forall r :: r in blocks && !blocks[r].fired ==> next.value <= blocks[r].at
    {
      next := None;
      var rest := blocks.Keys;
      while rest != {}
        invariant rest <= blocks.Keys
        invariant next.None? ==> forall r :: r in blocks.Keys - rest ==> blocks[r].fired
        invariant next.Some? ==>
                    && (exists r :: r in blocks && !blocks[r].fired && blocks[r].at == next.value)
                    && forall r :: r in blocks.Keys - rest && !blocks[r].fired ==> next.value <= blocks[r].at
        decreases |rest|
      {
        var r :| r in rest;
        if !blocks[r].fired && (next.None? || blocks[r].at < next.value) {
          next := Some(blocks[r].at);
        }
        rest := rest - {r};
      }
    }
  }

  function AfterArrival(blocks: deadlines, ref: octets, tatl: nat, now: nat): deadlines
  {
    if tatl == 0 then blocks else blocks[ref := Deadline(now + tatl, false)]
  }

  datatype Event = Heard(ref: octets, tatl: nat, at: nat) | Check(at: nat)

  function Watched(events: seq<Event>): deadlines
  {
    if events == [] then map[]
    else
      var was := Watched(events[..|events| - 1]);
      match events[|events| - 1]
      case Heard(ref, tatl, at) => AfterArrival(was, ref, tatl, at)
      case Check(at) => Marked(was, at)
  }

  /** Whether event `i` is a check that reports `ref`. */
  predicate Reports(events: seq<Event>, i: nat, ref: octets)
    requires i < |events|
  {
    events[i].Check? && ref in Watched(events[..i]) && IsDue(Watched(events[..i])[ref], events[i].at)
  }

  /** Whether event `i` restarts the deadline of `ref`. */
  predicate Restarts(events: seq<Event>, i: nat, ref: octets)
    requires i < |events|
  {
    events[i].Heard? && events[i].ref == ref && events[i].tatl > 0
  }

  /** The last of `events` to restart the deadline of `ref`. */
  function LastRestart(events: seq<Event>, ref: octets): (r: Option<nat>)
    ensures r.Some? ==> r.value < |events| && Restarts(events, r.value, ref)
    ensures forall k :: (if r.Some? then r.value else -1) < k < |events| ==> !Restarts(events, k, ref)
  {
    var n := |events|;
    if n == 0 then None
    else if Restarts(events, n - 1, ref) then Some(n - 1)
    else
      var r := LastRestart(events[..n - 1], ref);
      assert forall k :: 0 <= k < n - 1 ==> Restarts(events[..n - 1], k, ref) == Restarts(events, k, ref);
      r
  }

  /** Whether `ref` has been reported since its deadline last restarted. */
  ghost predicate ReportedSince(events: seq<Event>, k: nat, ref: octets)
  {
    exists i :: k < i < |events| && Reports(events, i, ref)
  }

  lemma {:induction false} WatchedMeans(events: seq<Event>, ref: octets)
    ensures var last := LastRestart(events, ref);
            && (last.None? <==> ref !in Watched(events))
            && (last.Some? ==>
                  && Watched(events)[ref].at == events[last.value].at + events[last.value].tatl
                  && (Watched(events)[ref].fired <==> ReportedSince(events, last.value, ref)))
  {
    if events != [] {
      var n := |events| - 1;
      var init := events[..n];
      WatchedMeans(init, ref);
      forall i | 0 <= i < n ensures Reports(init, i, ref) == Reports(events, i, ref) {
        assert init[..i] == events[..i];
      }
      if !Restarts(events, n, ref) && ref in Watched(init) {
        var k := LastRestart(init, ref).value;
        assert ReportedSince(events, k, ref) <==> ReportedSince(init, k, ref) || Reports(events, n, ref);
      }
    }
  }

  /** A check reports a control block exactly when its last message with a
      lifetime is out of date and no check since that message has reported it:
      once for each silence. */
  lemma ReportedOncePerSilence(events: seq<Event>, i: nat, ref: octets)
    requires i < |events| && events[i].Check?
    ensures var last := LastRestart(events[..i], ref);
            Reports(events, i, ref) <==>
              && last.Some?
              && events[last.value].at + events[last.value].tatl <= events[i].at
              && !ReportedSince(events[..i], last.value, ref)
  {
    WatchedMeans(events[..i], ref);
  }

  /** Between two reports of a control block there is a message that restarts it. */
  lemma ReportsAreSeparated(events: seq<Event>, i: nat, j: nat, ref: octets)
    requires i < j < |events| && Reports(events, i, ref) && Reports(events, j, ref)
    ensures exists k :: i < k < j && Restarts(events, k, ref)
  {
    var before := events[..j];
    ReportedOncePerSilence(events, j, ref);
    var k := LastRestart(before, ref).value;
    assert before[..i] == events[..i];
    assert Reports(before, i, ref);
    assert Restarts(before, k, ref) && Restarts(events, k, ref);
  }

  /** A message without a lifetime does not end a silence: the block can be
      reported though it has just been heard from. */
  lemma ZeroLifetimeExample()
    ensures var ref: octets := [1];
            Reports([Heard(ref, 10, 0), Heard(ref, 0, 9), Check(10)], 2, ref)
  {
    var ref: octets := [1];
    var events := [Heard(ref, 10, 0), Heard(ref, 0, 9), Check(10)];
    assert events[..2][..1] == [Heard(ref, 10, 0)];
    assert events[..2][..1][..0] == [];
    assert Watched(events[..2][..1]) == map[ref := Deadline(10, false)];
    assert Watched(events[..2]) == map[ref := Deadline(10, false)];
  }
}
