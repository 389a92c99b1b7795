/** The retransmission schedule of a control block (src/goose/scl.rs). */
module GooseSchedule {
  import opened Octets
  import opened GoosePublisher

  const MAX_RETRANS_STEPS: nat := 16

  /** `first`, doubled `k` times. */
  function Doubled(first: nat, k: nat): nat { if k == 0 then first else 2 * Doubled(first, k - 1) }

  /** The first interval, in milliseconds. */
  function FirstInterval(minTime: u32, maxTime: u32): nat
  {
    if minTime == 0 then Max(maxTime / 64, 1) else minTime
  }

  /** A schedule that doubles from `first` and then holds `last`, both in
      milliseconds: it stops doubling at `last` or after 16 steps. */
  ghost predicate Doubles(s: seq<nat>, first: nat, last: nat)
  {
    && 1 <= |s| <= MAX_RETRANS_STEPS + 1
    && (forall i :: 0 <= i < |s| - 1 ==> s[i] == Doubled(first, i) * MILLISECOND && Doubled(first, i) < last)
    && s[|s| - 1] == last * MILLISECOND
    && (|s| == MAX_RETRANS_STEPS + 1 || last <= Doubled(first, |s| - 1))
  }

  method RetransFromScl(minTime: u32, maxTime: u32) returns (out: seq<nat>)
    ensures minTime == 0 && maxTime == 0 ==> out == DEFAULT_RETRANS
    ensures minTime != 0 || maxTime != 0 ==>
              var first := FirstInterval(minTime, maxTime); Doubles(out, first, Max(maxTime, first))
  {
    var minMs: u64, maxMs: u64 := minTime, maxTime;
    if minMs == 0 && maxMs == 0 {
      return DEFAULT_RETRANS;
    }
    if minMs == 0 {
      minMs := Max(maxMs / 64, 1);
    }
    maxMs := Max(maxMs, minMs);
    out := DoublingSchedule(minMs, maxMs);
  }

  method DoublingSchedule(minMs: u64, maxMs: u64) returns (out: seq<nat>)
    requires minMs <= maxMs < 0x1_0000_0000
    ensures Doubles(out, minMs, maxMs)
  {
    hide Doubled;
    out := [];
    var d: u64 := minMs;
    DoubledStep(minMs, 0);
    while d < maxMs && |out| < MAX_RETRANS_STEPS
      invariant d == Doubled(minMs, |out|) && |out| <= MAX_RETRANS_STEPS
      invariant forall i :: 0 <= i < |out| ==> out[i] == Doubled(minMs, i) * MILLISECOND && Doubled(minMs, i) < maxMs
      decreases MAX_RETRANS_STEPS - |out|
    {
      DoubledStep(minMs, |out| + 1);
      out := out + [d * MILLISECOND];
      d := 2 * d;
    }
    out := out + [maxMs * MILLISECOND];
  }

  lemma DoubledStep(first: nat, k: nat)
    ensures Doubled(first, k) == if k == 0 then first else 2 * Doubled(first, k - 1)
  {
  }

  /** A schedule a publisher never outlives: not empty, positive, strictly
      increasing, short, and within a 32-bit timeAllowedToLive. */
  ghost predicate Sound(s: seq<nat>)
  {
    && 1 <= |s| <= MAX_RETRANS_STEPS + 1
    && (forall i :: 0 <= i < |s| ==> 0 < s[i] <= U32_MAX * MILLISECOND)
    && forall i, j :: 0 <= i < j < |s| ==> s[i] < s[j]
  }

  lemma {:induction false} DoubledGrows(first: nat, i: nat, j: nat)
    requires first > 0 && i < j
    ensures 0 < Doubled(first, i) < Doubled(first, j)
    decreases j
  {
    if i < j - 1 { DoubledGrows(first, i, j - 1); } else { DoubledPositive(first, i); }
  }

  lemma {:induction false} DoubledPositive(first: nat, i: nat)
    requires first > 0
    ensures Doubled(first, i) > 0
  {
    if i > 0 { DoubledPositive(first, i - 1); }
  }

  lemma DoublesIsSound(s: seq<nat>, first: nat, last: nat)
    requires Doubles(s, first, last) && 1 <= first <= last <= U32_MAX
    ensures Sound(s)
  {
    hide Doubled;
    forall i | 0 <= i < |s| ensures 0 < s[i] <= U32_MAX * MILLISECOND {
      if i < |s| - 1 { DoubledPositive(first, i); }
    }
    forall i, j | 0 <= i < j < |s| ensures s[i] < s[j] {
      if j < |s| - 1 { DoubledGrows(first, i, j); }
    }
  }

  /** Whatever MinTime and MaxTime a control block has, its schedule is sound. */
  lemma ScheduleIsSound(minTime: u32, maxTime: u32, s: seq<nat>)
    requires minTime == 0 && maxTime == 0 ==> s == DEFAULT_RETRANS
    requires minTime != 0 || maxTime != 0 ==>
               var first := FirstInterval(minTime, maxTime); Doubles(s, first, Max(maxTime, first))
    ensures Sound(s)
    ensures maxTime > 0 && maxTime >= minTime ==> forall i :: 0 <= i < |s| ==> s[i] <= maxTime * MILLISECOND
  {
    if minTime != 0 || maxTime != 0 {
      var first := FirstInterval(minTime, maxTime);
      DoublesIsSound(s, first, Max(maxTime, first));
    }
  }
}
