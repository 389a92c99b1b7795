/** The GOOSE publisher as a system of steps (src/goose/publisher.rs). Any
    number of `publish` and `refresh` calls run at once, superseded
    retransmission tasks wake late, and the runtime may drop a sleeping task.
    Each locked section, each send and each check is one step. */
module GoosePublisher {
  import opened Octets
  import opened ValueCodec
  import opened GooseMessage

  const MAX_PAYLOAD: nat := 1500
  const MILLISECOND: nat := 1_000_000

  /** Intervals are in nanoseconds. */
  const DEFAULT_RETRANS: seq<nat> :=
    [ 4 * MILLISECOND, 8 * MILLISECOND, 16 * MILLISECOND, 32 * MILLISECOND, 64 * MILLISECOND, 128 * MILLISECOND,
      256 * MILLISECOND, 512 * MILLISECOND, 1000 * MILLISECOND ]

  datatype Config = Config(
    goCbRef: octets, datSet: octets, goId: octets, confRev: u32, appId: u16, retrans: seq<nat>, test: bool,
    ndsCom: bool)

  predicate Usable(cfg: Config)
  {
    cfg.goCbRef != [] && cfg.goId != [] && cfg.retrans != [] && forall i :: 0 <= i < |cfg.retrans| ==> cfg.retrans[i] > 0
  }

  type config = c: Config | Usable(c) witness Config([0], [], [0], 0, 0, [1], false, false)

  /** The configuration `Publisher::new` works with, if it accepts the one given. */
  function Accepted(c: Config): (r: Option<config>)
    ensures r.Some? <==> c.goCbRef != [] && forall i :: 0 <= i < |c.retrans| ==> c.retrans[i] > 0
    ensures r.Some? ==>
              && r.value == c.(goId := r.value.goId, retrans := r.value.retrans)
              && (if c.goId == [] then r.value.goId == c.goCbRef else r.value.goId == c.goId)
              && (if c.retrans == [] then r.value.retrans == DEFAULT_RETRANS else r.value.retrans == c.retrans)
  {
    var retrans := if c.retrans == [] then DEFAULT_RETRANS else c.retrans;
    if c.goCbRef == [] || exists i :: 0 <= i < |retrans| && retrans[i] == 0 then None
    else Some(c.(retrans := retrans, goId := if c.goId == [] then c.goCbRef else c.goId))
  }

  /** Both counters go from their greatest value to 1. */
  function NextCounter(n: u32): u32 { if n == U32_MAX then 1 else n + 1 }

  function Min(a: nat, b: nat): nat { if a < b then a else b }

  function Max(a: nat, b: nat): nat { if a < b then b else a }

  /** The interval after transmission `n` of a state. */
  function IntervalAfter(cfg: config, n: nat): nat { cfg.retrans[Min(n, |cfg.retrans| - 1)] }

  /** timeAllowedToLive of transmission `n`: twice the interval that follows it. */
  function Tatl(cfg: config, n: nat): u32 { Min(Max(2 * (IntervalAfter(cfg, n) / MILLISECOND), 1), U32_MAX) }

  /** timeAllowedToLive is never 0, and it covers the interval that follows
      exactly when a 32-bit number of milliseconds can. */
  lemma TatlCovers(cfg: config, n: nat)
    ensures Tatl(cfg, n) >= 1
    ensures IntervalAfter(cfg, n) <= Tatl(cfg, n) * MILLISECOND <==> IntervalAfter(cfg, n) <= U32_MAX * MILLISECOND
  {
    var ms := IntervalAfter(cfg, n) / MILLISECOND;
    assert IntervalAfter(cfg, n) < (ms + 1) * MILLISECOND;
  }

  /** An interval of 2^32 milliseconds outlasts the lifetime announced for it. */
  lemma TatlExample()
    ensures var cfg := Config([0], [], [0], 0, 0, [0x1_0000_0000 * MILLISECOND], false, false);
            Usable(cfg) && Tatl(cfg, 0) * MILLISECOND < IntervalAfter(cfg, 0)
  {
    var cfg := Config([0], [], [0], 0, 0, [0x1_0000_0000 * MILLISECOND], false, false);
    TatlCovers(cfg, 0);
  }

  // ---- The state under the lock.

  type timestamp = s: octets | |s| == 8 witness [0, 0, 0, 0, 0, 0, 0, 0]

  datatype PubState = PubState(
    stNum: u32, sqNum: u32, test: bool, ndsCom: bool, t: Option<timestamp>, generation: nat)

  datatype Call = Call(values: seq<Value>, change: bool)

  function NextSt(st: PubState, change: bool): u32
  {
    if change then NextCounter(st.stNum) else if st.stNum == 0 then 1 else st.stNum
  }

  function NextTime(st: PubState, change: bool, now: timestamp): timestamp
  {
    if !change && st.t.Some? then st.t.value else now
  }

  function Announcing(cfg: config, st: PubState, call: Call, now: timestamp): Message
  {
    Message(cfg.goCbRef, cfg.datSet, cfg.goId, Tatl(cfg, 0), NextTime(st, call.change, now), NextSt(st, call.change), 0,
            cfg.confRev, st.test, st.ndsCom, |call.values| % 0x1_0000_0000, call.values, cfg.appId)
  }

  predicate Fits(m: Message) { |Marshal(Widest(m))| <= MAX_PAYLOAD }

  function Announced(st: PubState, m: Message): PubState
    requires |m.utc| == 8
  {
    st.(stNum := m.stNum, sqNum := 0, t := Some(m.utc), generation := st.generation + 1)
  }

  /** `PubState` behind its mutex: each method is one locked section. */
  class StateCell {
    var stNum: u32
    var sqNum: u32
    var test: bool
    var ndsCom: bool
    var t: Option<timestamp>
    var generation: nat

    ghost function Now(): PubState
      reads this
    {
      PubState(stNum, sqNum, test, ndsCom, t, generation)
    }

    constructor (test: bool, ndsCom: bool)
      ensures Now() == PubState(0, 0, test, ndsCom, None, 0)
    {
      this.stNum, this.sqNum, this.test, this.ndsCom := 0, 0, test, ndsCom;
      this.t, this.generation := None, 0;
    }

    /** The part of `publish_state` under the lock: a message that may
        outgrow a frame changes nothing. */
    method Announce(cfg: config, call: Call, now: timestamp) returns (r: Option<(Message, nat)>)
      modifies this
      ensures var m := Announcing(cfg, old(Now()), call, now);
              && (r.Some? <==> Fits(m))
              && (r.Some? ==> r.value == (m, generation) && Now() == Announced(old(Now()), m))
              && (r.None? ==> Now() == old(Now()))
    {
      hide Marshal, Tatl;
      var next: u32;
      if call.change {
        next := (stNum + 1) % 0x1_0000_0000;
        if next < 1 { next := 1; }
      } else if stNum == 0 {
        next := 1;
      } else {
        next := stNum;
      }
      var time := if !call.change && t.Some? then t.value else now;
      var m := Message(cfg.goCbRef, cfg.datSet, cfg.goId, Tatl(cfg, 0), time, next, 0, cfg.confRev, test, ndsCom,
                       |call.values| % 0x1_0000_0000, call.values, cfg.appId);
      var widest := MarshalMessage(m.(sqNum := U32_MAX, tatl := U32_MAX));
      if |widest| > MAX_PAYLOAD {
        return None;
      }
      stNum, sqNum, t, generation := next, 0, Some(time), generation + 1;
      return Some((m, generation));
    }

    /** The part of `retransmit` under the lock, up to the send. */
    method Recheck(m: Message, gen: nat) returns (current: bool)
      modifies this
      ensures current <==> old(generation) == gen
      ensures Now() == if current then old(Now()).(sqNum := m.sqNum) else old(Now())
    {
      if generation != gen {
        return false;
      }
      sqNum := m.sqNum;
      return true;
    }
  }

  // ---- Retransmission.

  /** `sent` counts the finished turns of a retransmission loop; a woken task has
      prepared its next message and waits for the lock. */
  datatype Task = Task(gen: nat, msg: Message, sent: nat, woken: bool)

  function Woken(cfg: config, t: Task): Task
  {
    t.(msg := t.msg.(sqNum := NextCounter(t.msg.sqNum), tatl := Tatl(cfg, t.sent + 1)), woken := true)
  }

  /** sqNum of transmission `k` of a state. */
  function SqAt(k: nat): u32 { if k == 0 then 0 else NextCounter(SqAt(k - 1)) }

  lemma {:induction false} SqAtClosed(k: nat)
    ensures SqAt(k) == if k == 0 then 0 else (k - 1) % U32_MAX + 1
  {
    hide SqAt;
    SqAtStep(k);
    if k > 0 {
      SqAtClosed(k - 1);
      if k > 1 { CounterStep(k - 2); }
    }
  }

  lemma SqAtStep(k: nat)
    ensures SqAt(k) == if k == 0 then 0 else NextCounter(SqAt(k - 1))
  {
  }

  lemma CounterStep(a: nat)
    ensures NextCounter(a % U32_MAX + 1) == (a + 1) % U32_MAX + 1
  {
  }

  /** Transmission `k` of the state that `m` announced. */
  function Copy(cfg: config, m: Message, k: nat): Message { m.(sqNum := SqAt(k), tatl := Tatl(cfg, k)) }

  // ---- The system.

  /** Who holds the slot of the retransmission task: none; a call that has not yet announced;
      one that has announced but not sent; one that has sent. */
  datatype Slot = Free | Acquired(call: Call) | Unsent(gen: nat, msg: Message) | Sent(gen: nat, msg: Message)

  datatype Frame = Frame(gen: nat, msg: Message)

  datatype Announcement = Announcement(change: bool, msg: Message)

  /** `wire` and `log` record what was sent and announced, `lost` whether a
      send has failed; the publisher does not read them. */
  datatype World = World(
    st: PubState, closed: bool, entered: seq<Call>, slot: Slot, tasks: map<nat, Task>, nextId: nat,
    wire: seq<Frame>, log: seq<Announcement>, lost: bool)

  datatype Step =
    | Enter(call: Call)
    | Acquire(index: nat)
    | Announce(now: timestamp)
    | Deliver(ok: bool)
    | Spawn
    | Wake(id: nat)
    | Transmit(id: nat, ok: bool)
    | Abort(id: nat)
    | SetTest(on: bool)
    | SetNdsCom(on: bool)
    | Close

  function Start(cfg: config): World
  {
    World(PubState(0, 0, cfg.test, cfg.ndsCom, None, 0), false, [], Free, map[], 0, [], [], false)
  }

  function AnnounceStep(cfg: config, w: World, call: Call, now: timestamp): World
  {
    var m := Announcing(cfg, w.st, call, now);
    if !Fits(m) then w.(slot := Free)
    else w.(st := Announced(w.st, m), slot := Unsent(w.st.generation + 1, m), log := w.log + [Announcement(call.change, m)])
  }

  function TransmitStep(w: World, id: nat, ok: bool): World
    requires id in w.tasks
  {
    var t := w.tasks[id];
    if w.st.generation != t.gen then w.(tasks := w.tasks - {id})
    else
      var w' := w.(st := w.st.(sqNum := t.msg.sqNum));
      if !ok then w'.(tasks := w.tasks - {id}, lost := true)
      else w'.(tasks := w.tasks[id := t.(sent := t.sent + 1, woken := false)], wire := w.wire + [Frame(t.gen, t.msg)])
  }

  /** One step; a step that cannot be taken leaves everything as it is. */
  function Next(cfg: config, w: World, s: Step): World
  {
    match s
    case Enter(call) => if w.closed then w else w.(entered := w.entered + [call])
    case Acquire(i) =>
      if !w.slot.Free? || i >= |w.entered| then w
      else w.(slot := Acquired(w.entered[i]), entered := w.entered[..i] + w.entered[i + 1..])
    case Announce(now) => if w.slot.Acquired? then AnnounceStep(cfg, w, w.slot.call, now) else w
    case Deliver(ok) =>
      if !w.slot.Unsent? then w
      else if !ok then w.(slot := Free, lost := true)
      else w.(slot := Sent(w.slot.gen, w.slot.msg), wire := w.wire + [Frame(w.slot.gen, w.slot.msg)])
    case Spawn =>
      if !w.slot.Sent? then w
      else w.(slot := Free, tasks := w.tasks[w.nextId := Task(w.slot.gen, w.slot.msg, 0, false)], nextId := w.nextId + 1)
    case Wake(id) =>
      if id !in w.tasks || w.tasks[id].woken then w
      else if w.closed then w.(tasks := w.tasks - {id})
      else w.(tasks := w.tasks[id := Woken(cfg, w.tasks[id])])
    case Transmit(id, ok) => if id in w.tasks && w.tasks[id].woken then TransmitStep(w, id, ok) else w
    case Abort(id) => if id in w.tasks && !w.tasks[id].woken then w.(tasks := w.tasks - {id}) else w
    case SetTest(on) => w.(st := w.st.(test := on))
    case SetNdsCom(on) => w.(st := w.st.(ndsCom := on))
    case Close => w.(closed := true)
  }

  function Run(cfg: config, steps: seq<Step>): World
  {
    if steps == [] then Start(cfg) else Next(cfg, Run(cfg, steps[..|steps| - 1]), steps[|steps| - 1])
  }

  // ---- What every run keeps.

  function Count(wire: seq<Frame>, gen: nat): nat
  {
    if wire == [] then 0
    else Count(wire[..|wire| - 1], gen) + if wire[|wire| - 1].gen == gen then 1 else 0
  }

  ghost predicate LogOk(cfg: config, log: seq<Announcement>)
  {
    forall i :: 0 <= i < |log| ==> Follows(cfg, log, i)
  }

  /** How announcement `i` follows the one before it. */
  ghost predicate Follows(cfg: config, log: seq<Announcement>, i: nat)
    requires i < |log|
  {
    var m := log[i].msg;
    && |m.utc| == 8
    && m.goCbRef == cfg.goCbRef && m.goId == cfg.goId && m.datSet == cfg.datSet
    && m.confRev == cfg.confRev && m.appId == cfg.appId && m.entries == |m.values| % 0x1_0000_0000
    && m.sqNum == 0 && m.tatl == Tatl(cfg, 0) && m.stNum >= 1
    && Fits(m)
    && if i == 0 then m.stNum == 1
       else if log[i].change then m.stNum == NextCounter(log[i - 1].msg.stNum)
       else m.stNum == log[i - 1].msg.stNum && m.utc == log[i - 1].msg.utc
  }

  ghost predicate StateOk(w: World)
  {
    && |w.log| == w.st.generation
    && if w.log == [] then w.st.stNum == 0 && w.st.t == None
       else var m := w.log[|w.log| - 1].msg; w.st.stNum == m.stNum && |m.utc| == 8 && w.st.t == Some(m.utc)
  }

  ghost predicate WireOk(cfg: config, wire: seq<Frame>, log: seq<Announcement>)
  {
    wire == [] ||
    var sent, f := wire[..|wire| - 1], wire[|wire| - 1];
    && WireOk(cfg, sent, log)
    && 1 <= f.gen <= |log|
    && LastGen(sent) <= f.gen
    && f.msg == Copy(cfg, log[f.gen - 1].msg, Count(sent, f.gen))
  }

  function LastGen(wire: seq<Frame>): nat { if wire == [] then 0 else wire[|wire| - 1].gen }

  ghost predicate TaskOk(cfg: config, w: World, t: Task)
  {
    && 1 <= t.gen <= |w.log|
    && (t.gen == |w.log| ==>
          && Count(w.wire, t.gen) == t.sent + 1
          && t.msg == Copy(cfg, w.log[t.gen - 1].msg, if t.woken then t.sent + 1 else t.sent))
  }

  ghost predicate TasksOk(cfg: config, w: World)
  {
    && (forall id :: id in w.tasks ==> id < w.nextId && TaskOk(cfg, w, w.tasks[id]))
    && (forall a, b :: a in w.tasks && b in w.tasks && w.tasks[a].gen == w.tasks[b].gen == |w.log| ==> a == b)
  }

  ghost predicate SlotOk(w: World)
  {
    w.slot.Unsent? || w.slot.Sent? ==>
      && w.slot.gen == |w.log| >= 1
      && w.slot.msg == w.log[|w.log| - 1].msg
      && Count(w.wire, w.slot.gen) == (if w.slot.Sent? then 1 else 0)
      && forall id :: id in w.tasks ==> w.tasks[id].gen < |w.log|
  }

  /** Frames take every generation in turn. */
  ghost predicate Dense(wire: seq<Frame>)
  {
    wire == [] ||
    var sent := wire[..|wire| - 1];
    Dense(sent) && wire[|wire| - 1].gen <= LastGen(sent) + 1
  }

  ghost predicate DenseOk(w: World)
  {
    !w.lost ==> Dense(w.wire) && |w.log| == LastGen(w.wire) + if w.slot.Unsent? then 1 else 0
  }

  ghost predicate Inv(cfg: config, w: World)
  {
    LogOk(cfg, w.log) && StateOk(w) && WireOk(cfg, w.wire, w.log) && TasksOk(cfg, w) && SlotOk(w) && DenseOk(w)
  }

  lemma {:induction false} CountNone(cfg: config, wire: seq<Frame>, log: seq<Announcement>, gen: nat)
    requires WireOk(cfg, wire, log) && gen > |log|
    ensures Count(wire, gen) == 0 && LastGen(wire) <= |log|
  {
    hide Copy;
    if wire != [] { CountNone(cfg, wire[..|wire| - 1], log, gen); }
  }

  lemma {:induction false} WireOkLonger(cfg: config, wire: seq<Frame>, log: seq<Announcement>, a: Announcement)
    requires WireOk(cfg, wire, log)
    ensures WireOk(cfg, wire, log + [a])
  {
    hide Copy;
    if wire != [] { WireOkLonger(cfg, wire[..|wire| - 1], log, a); }
  }

  lemma CountAppend(wire: seq<Frame>, f: Frame, gen: nat)
    ensures Count(wire + [f], gen) == Count(wire, gen) + if f.gen == gen then 1 else 0
    ensures LastGen(wire + [f]) == f.gen
  {
    assert (wire + [f])[..|wire|] == wire;
  }

  lemma WireAppend(cfg: config, wire: seq<Frame>, log: seq<Announcement>, f: Frame)
    requires WireOk(cfg, wire, log) && f.gen == |log| >= 1
    requires f.msg == Copy(cfg, log[f.gen - 1].msg, Count(wire, f.gen))
    ensures WireOk(cfg, wire + [f], log)
    ensures Dense(wire) && |log| <= LastGen(wire) + 1 ==> Dense(wire + [f])
  {
    hide Copy, Count;
    CountNone(cfg, wire, log, |log| + 1);
    assert (wire + [f])[..|wire|] == wire;
  }

  /** The first transmission is the announcing message itself. */
  lemma CopyZero(cfg: config, m: Message)
    requires m.sqNum == 0 && m.tatl == Tatl(cfg, 0)
    ensures Copy(cfg, m, 0) == m
  {
  }

  lemma AnnounceKeeps(cfg: config, w: World, call: Call, now: timestamp)
    requires Inv(cfg, w) && w.slot == Acquired(call)
    ensures Inv(cfg, AnnounceStep(cfg, w, call, now))
  {
    hide Marshal, Copy, Count, Tatl, WireOk, Dense;
    var m, w' := Announcing(cfg, w.st, call, now), AnnounceStep(cfg, w, call, now);
    if Fits(m) {
      var a := Announcement(call.change, m);
      WireOkLonger(cfg, w.wire, w.log, a);
      CountNone(cfg, w.wire, w.log, |w.log| + 1);
      LogGrows(cfg, w, call, now);
    }
  }

  lemma LogGrows(cfg: config, w: World, call: Call, now: timestamp)
    requires LogOk(cfg, w.log) && StateOk(w) && Fits(Announcing(cfg, w.st, call, now))
    ensures LogOk(cfg, w.log + [Announcement(call.change, Announcing(cfg, w.st, call, now))])
  {
    hide Marshal, Tatl, Fits;
    var a := Announcement(call.change, Announcing(cfg, w.st, call, now));
    var log' := w.log + [a];
    forall i | 0 <= i < |log'| ensures Follows(cfg, log', i) {
      if i < |w.log| { assert Follows(cfg, w.log, i); }
      if i == |w.log| > 0 { assert Follows(cfg, w.log, i - 1); }
    }
  }

  lemma DeliverKeeps(cfg: config, w: World, ok: bool)
    requires Inv(cfg, w)
    ensures Inv(cfg, Next(cfg, w, Deliver(ok)))
  {
    hide Marshal, Tatl, Copy, Fits, Count, WireOk, Dense;
    if w.slot.Unsent? && ok {
      var f := Frame(w.slot.gen, w.slot.msg);
      assert Follows(cfg, w.log, |w.log| - 1);
      CopyZero(cfg, f.msg);
      WireAppend(cfg, w.wire, w.log, f);
      CountAppend(w.wire, f, f.gen);
    }
  }

  lemma SpawnKeeps(cfg: config, w: World)
    requires Inv(cfg, w)
    ensures Inv(cfg, Next(cfg, w, Spawn))
  {
    hide Marshal, Tatl, Copy, Fits, Count, WireOk, Dense;
    if w.slot.Sent? {
      assert Follows(cfg, w.log, |w.log| - 1);
      CopyZero(cfg, w.slot.msg);
    }
  }

  /** Waking prepares the next copy. */
  lemma WakeCopies(cfg: config, t: Task, m: Message)
    requires t.msg == Copy(cfg, m, t.sent)
    ensures Woken(cfg, t).msg == Copy(cfg, m, t.sent + 1)
  {
  }

  lemma WakeKeeps(cfg: config, w: World, id: nat)
    requires Inv(cfg, w)
    ensures Inv(cfg, Next(cfg, w, Wake(id)))
  {
    hide Marshal, Tatl, Copy, Fits, Count, WireOk, Dense, Follows, LogOk, NextCounter;
    if id in w.tasks && !w.tasks[id].woken && !w.closed && w.tasks[id].gen == |w.log| {
      WakeCopies(cfg, w.tasks[id], w.log[|w.log| - 1].msg);
    }
  }

  lemma TransmitKeeps(cfg: config, w: World, id: nat, ok: bool)
    requires Inv(cfg, w) && id in w.tasks && w.tasks[id].woken
    ensures Inv(cfg, TransmitStep(w, id, ok))
  {
    hide Marshal, Tatl, Copy, Fits, Count, WireOk, Dense, Follows;
    var t := w.tasks[id];
    if w.st.generation == t.gen && ok {
      var f := Frame(t.gen, t.msg);
      WireAppend(cfg, w.wire, w.log, f);
      CountAppend(w.wire, f, f.gen);
    }
  }

  /** A step that neither announces nor sends. */
  lemma QuietKeeps(cfg: config, w: World, s: Step)
    requires Inv(cfg, w) && (s.Enter? || s.Acquire? || s.SetTest? || s.SetNdsCom? || s.Close?)
    ensures Inv(cfg, Next(cfg, w, s))
  {
    hide Marshal, Tatl, Copy, Fits, Count, WireOk, Dense, Follows, AnnounceStep, TransmitStep, LogOk, TaskOk;
    var w' := Next(cfg, w, s);
    assert w'.log == w.log && w'.wire == w.wire && w'.tasks == w.tasks && w'.nextId == w.nextId;
    assert forall t: Task :: TaskOk(cfg, w', t) == TaskOk(cfg, w, t) by { TasksAlike(cfg, w, w'); }
  }

  lemma TasksAlike(cfg: config, w: World, w': World)
    requires w'.log == w.log && w'.wire == w.wire
    ensures forall t: Task :: TaskOk(cfg, w', t) == TaskOk(cfg, w, t)
  {
    hide Copy, Count;
  }

  lemma AbortKeeps(cfg: config, w: World, id: nat)
    requires Inv(cfg, w)
    ensures Inv(cfg, Next(cfg, w, Abort(id)))
  {
    hide Marshal, Tatl, Copy, Fits, Count, WireOk, Dense, Follows, AnnounceStep, TransmitStep, LogOk;
  }

  lemma NextKeeps(cfg: config, w: World, s: Step)
    requires Inv(cfg, w)
    ensures Inv(cfg, Next(cfg, w, s))
  {
    hide Inv, AnnounceStep, TransmitStep;
    match s
    case Announce(now) => if w.slot.Acquired? { AnnounceKeeps(cfg, w, w.slot.call, now); }
    case Deliver(ok) => DeliverKeeps(cfg, w, ok);
    case Spawn => SpawnKeeps(cfg, w);
    case Wake(id) => WakeKeeps(cfg, w, id);
    case Transmit(id, ok) => if id in w.tasks && w.tasks[id].woken { TransmitKeeps(cfg, w, id, ok); }
    case Abort(id) => AbortKeeps(cfg, w, id);
    case Enter(_) => QuietKeeps(cfg, w, s);
    case Acquire(_) => QuietKeeps(cfg, w, s);
    case SetTest(_) => QuietKeeps(cfg, w, s);
    case SetNdsCom(_) => QuietKeeps(cfg, w, s);
    case Close => QuietKeeps(cfg, w, s);
  }

  lemma {:induction false} RunKeeps(cfg: config, steps: seq<Step>)
    ensures Inv(cfg, Run(cfg, steps))
  {
    hide Inv, Next;
    if steps == [] {
      StartKeeps(cfg);
    } else {
      RunKeeps(cfg, steps[..|steps| - 1]);
      NextKeeps(cfg, Run(cfg, steps[..|steps| - 1]), steps[|steps| - 1]);
    }
  }

  lemma StartKeeps(cfg: config)
    ensures Inv(cfg, Start(cfg))
  {
  }

  // ---- What is on the wire.

  /** Which transmission of its generation frame `i` is. */
  function Rank(wire: seq<Frame>, i: nat): nat
    requires i < |wire|
  {
    Count(wire[..i], wire[i].gen)
  }

  lemma {:induction false} FrameIsCopy(cfg: config, wire: seq<Frame>, log: seq<Announcement>, i: nat)
    requires WireOk(cfg, wire, log) && i < |wire|
    ensures 1 <= wire[i].gen <= |log|
    ensures wire[i].msg == Copy(cfg, log[wire[i].gen - 1].msg, Rank(wire, i))
    ensures WireOk(cfg, wire[..i], log) && LastGen(wire[..i]) <= wire[i].gen
    decreases |wire|
  {
    hide Copy, Count;
    var sent := wire[..|wire| - 1];
    if i < |sent| {
      FrameIsCopy(cfg, sent, log, i);
      assert sent[..i] == wire[..i];
    }
  }

  lemma {:induction false} GensOrdered(cfg: config, wire: seq<Frame>, log: seq<Announcement>, i: nat, j: nat)
    requires WireOk(cfg, wire, log) && i <= j < |wire|
    ensures wire[i].gen <= wire[j].gen
    decreases j - i
  {
    hide Copy, Count, WireOk;
    if i < j {
      GensOrdered(cfg, wire, log, i, j - 1);
      FrameIsCopy(cfg, wire, log, j);
      assert wire[..j][|wire[..j]| - 1] == wire[j - 1];
    }
  }

  /** Between two frames of one generation there is no other frame. */
  lemma {:induction false} RanksContiguous(
    cfg: config, wire: seq<Frame>, log: seq<Announcement>, i: nat, j: nat)
    requires WireOk(cfg, wire, log) && i <= j < |wire| && wire[i].gen == wire[j].gen
    ensures Rank(wire, j) == Rank(wire, i) + (j - i)
    decreases j - i
  {
    hide Copy, WireOk;
    if i < j {
      GensOrdered(cfg, wire, log, i, j - 1);
      GensOrdered(cfg, wire, log, j - 1, j);
      RanksContiguous(cfg, wire, log, i, j - 1);
      assert wire[..j][..j - 1] == wire[..j - 1];
    }
  }

  /** The frame that starts a generation on the wire has rank 0. */
  lemma FirstOfGeneration(cfg: config, wire: seq<Frame>, log: seq<Announcement>, j: nat)
    requires WireOk(cfg, wire, log) && j < |wire|
    requires j == 0 || wire[j - 1].gen != wire[j].gen
    ensures Rank(wire, j) == 0
  {
    hide Copy, WireOk;
    if j > 0 {
      forall k | 0 <= k < j ensures wire[k].gen != wire[j].gen {
        GensOrdered(cfg, wire, log, k, j - 1);
        GensOrdered(cfg, wire, log, j - 1, j);
      }
    }
    CountZero(wire[..j], wire[j].gen);
  }

  lemma {:induction false} CountZero(wire: seq<Frame>, gen: nat)
    requires forall k :: 0 <= k < |wire| ==> wire[k].gen != gen
    ensures Count(wire, gen) == 0
  {
    if wire != [] { CountZero(wire[..|wire| - 1], gen); }
  }

  /** Whatever the interleaving: generations never go back on the wire; the
      frames of one generation stand together and are its transmissions 0, 1,
      2, ... with nothing missing; they differ from the announcing message in
      sqNum and timeAllowedToLive alone; and sqNum counts 0, 1, ..., 2^32 - 1,
      then on from 1. */
  lemma WireOrder(cfg: config, steps: seq<Step>, i: nat, j: nat)
    requires i <= j < |Run(cfg, steps).wire|
    ensures var w := Run(cfg, steps);
            var a, b := w.wire[i], w.wire[j];
            && 1 <= a.gen <= b.gen <= |w.log|
            && (a.gen == b.gen ==> Rank(w.wire, j) == Rank(w.wire, i) + (j - i))
            && (j == 0 || w.wire[j - 1].gen != b.gen ==> Rank(w.wire, j) == 0)
            && b.msg == w.log[b.gen - 1].msg.(sqNum := SqAt(Rank(w.wire, j)), tatl := Tatl(cfg, Rank(w.wire, j)))
            && b.msg.stNum >= 1
  {
    hide Run, Tatl, SqAt, WireOk, LogOk, TasksOk, SlotOk, DenseOk, StateOk, Count, Rank;
    RunKeeps(cfg, steps);
    var w := Run(cfg, steps);
    GensOrdered(cfg, w.wire, w.log, i, j);
    FrameInRun(cfg, w, i);
    FrameInRun(cfg, w, j);
    if w.wire[i].gen == w.wire[j].gen { RanksContiguous(cfg, w.wire, w.log, i, j); }
    if j == 0 || w.wire[j - 1].gen != w.wire[j].gen { FirstOfGeneration(cfg, w.wire, w.log, j); }
  }

  lemma FrameInRun(cfg: config, w: World, j: nat)
    requires Inv(cfg, w) && j < |w.wire|
    ensures var f := w.wire[j];
            && 1 <= f.gen <= |w.log| && f.msg.stNum >= 1
            && f.msg == w.log[f.gen - 1].msg.(sqNum := SqAt(Rank(w.wire, j)), tatl := Tatl(cfg, Rank(w.wire, j)))
  {
    hide Tatl, SqAt, WireOk, TasksOk, SlotOk, DenseOk, StateOk, Count, Rank, Fits;
    FrameIsCopy(cfg, w.wire, w.log, j);
    assert Follows(cfg, w.log, w.wire[j].gen - 1);
  }

  /** A state never comes back once a newer one is on the wire, and stNum moves
      only with a state change. */
  lemma StateNumbers(cfg: config, steps: seq<Step>, g: nat)
    requires g < |Run(cfg, steps).log|
    ensures var log := Run(cfg, steps).log;
            var m := log[g].msg;
            if g == 0 then m.stNum == 1
            else if log[g].change then m.stNum == NextCounter(log[g - 1].msg.stNum)
            else m.stNum == log[g - 1].msg.stNum && m.utc == log[g - 1].msg.utc
  {
    hide Run, Tatl, SqAt, WireOk, TasksOk, SlotOk, DenseOk, StateOk, Count;
    RunKeeps(cfg, steps);
    assert Follows(cfg, Run(cfg, steps).log, g);
  }

  /** No frame outgrows the payload, and its length field is its true length. */
  lemma FramesFit(cfg: config, steps: seq<Step>, j: nat)
    requires j < |Run(cfg, steps).wire|
    ensures var apdu := Marshal(Run(cfg, steps).wire[j].msg);
            |apdu| <= MAX_PAYLOAD && U16Of(apdu[2], apdu[3]) == |apdu|
  {
    hide Run, Tatl, SqAt, WireOk, TasksOk, SlotOk, DenseOk, StateOk, Count, Marshal;
    WireOrder(cfg, steps, j, j);
    RunKeeps(cfg, steps);
    var w := Run(cfg, steps);
    var f := w.wire[j];
    assert Follows(cfg, w.log, f.gen - 1);
    WidestIsLongest(w.log[f.gen - 1].msg, f.msg.sqNum, f.msg.tatl);
    LengthFieldTrue(f.msg);
  }

  /** The stNum `state` reports is that of the newest announcement, and 0 until
      there is one. */
  lemma StateReportsAdvertised(cfg: config, steps: seq<Step>)
    ensures var w := Run(cfg, steps);
            && w.st.generation == |w.log|
            && (w.log != [] ==> w.st.stNum == w.log[|w.log| - 1].msg.stNum)
            && (w.log == [] ==> w.st.stNum == 0 && w.wire == [])
  {
    hide Run, Tatl, SqAt, TasksOk, SlotOk, DenseOk, Count;
    RunKeeps(cfg, steps);
  }

  // ---- After close.

  /** The sends still owed once the publisher is closed: one by each call past
      its check, and one by each task already awake. */
  function Owed(w: World): nat
  {
    |w.entered| + (if w.slot.Acquired? || w.slot.Unsent? then 1 else 0) + |Awake(w.tasks)|
  }

  function Awake(tasks: map<nat, Task>): set<nat> { set id | id in tasks && tasks[id].woken }

  lemma Asleep(tasks: map<nat, Task>, id: nat, t: Task)
    requires !t.woken
    ensures |Awake(tasks - {id})| == |Awake(tasks[id := t])| <= |Awake(tasks)|
    ensures id in tasks && tasks[id].woken ==> |Awake(tasks - {id})| < |Awake(tasks)|
  {
    assert Awake(tasks - {id}) == Awake(tasks) - {id};
    assert Awake(tasks[id := t]) == Awake(tasks) - {id};
  }

  lemma CloseOwes(cfg: config, w: World, s: Step)
    requires w.closed
    ensures var w' := Next(cfg, w, s); w'.closed && |w'.wire| + Owed(w') <= |w.wire| + Owed(w)
  {
    hide Fits, Announcing, Awake, Woken;
    match s
    case Spawn => if w.slot.Sent? { Asleep(w.tasks, w.nextId, Task(w.slot.gen, w.slot.msg, 0, false)); }
    case Wake(id) => if id in w.tasks { Asleep(w.tasks, id, w.tasks[id].(woken := false)); }
    case Transmit(id, _) =>
      if id in w.tasks {
        Asleep(w.tasks, id, w.tasks[id].(sent := w.tasks[id].sent + 1, woken := false));
      }
    case Abort(id) => if id in w.tasks { Asleep(w.tasks, id, w.tasks[id].(woken := false)); }
    case Enter(_) =>
    case Acquire(_) =>
    case Announce(_) =>
    case Deliver(_) =>
    case SetTest(_) =>
    case SetNdsCom(_) =>
    case Close =>
  }

  /** However long it goes on, a closed publisher sends no more than it owed
      when it was closed: retransmission has stopped. */
  lemma {:induction false} CloseSilences(cfg: config, before: seq<Step>, after: seq<Step>)
    requires Run(cfg, before).closed
    ensures Run(cfg, before + after).closed
    ensures |Run(cfg, before + after).wire| + Owed(Run(cfg, before + after))
         <= |Run(cfg, before).wire| + Owed(Run(cfg, before))
    decreases |after|
  {
    hide Next, Owed;
    if after == [] {
      assert before + after == before;
    } else {
      var init := after[..|after| - 1];
      CloseSilences(cfg, before, init);
      assert (before + after)[..|before + after| - 1] == before + init;
      CloseOwes(cfg, Run(cfg, before + init), after[|after| - 1]);
    }
  }
}
