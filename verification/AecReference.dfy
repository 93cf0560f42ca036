/** The drop-oldest reference ring with its held-back delay (veetee_aec_reference.c). */
module AecReference {
  import opened Arithmetic
  import opened AecResampler

  const UINT32_MAX := 0xFFFF_FFFF

  datatype Stats = Stats(
    depth: nat, peak: nat, produced: nat, consumed: nat,
    underrun: nat, overrun: nat, frames: nat, resets: nat)

  function Capped(n: nat): (r: nat) {
    Min(n, UINT32_MAX)
  }

  /** `saturating_add` on 32-bit counters. */
  function SaturatingAdd(value: nat, amount: nat): (r: nat)
    requires value <= UINT32_MAX
    ensures r <= UINT32_MAX
  {
    if amount > UINT32_MAX - value then UINT32_MAX else value + amount
  }

  // -------------------------------------------------- the sequence it refines

  datatype Ring = Ring(contents: seq<Sample>, capacity: nat, delay: nat, stats: Stats)

  function LastN(s: seq<Sample>, n: nat): seq<Sample> {
    if |s| <= n then s else s[|s| - n..]
  }

  function Zeros(n: nat): (z: seq<Sample>)
    ensures |z| == n && forall i :: 0 <= i < n ==> z[i] == 0
  {
    seq(n, _ => 0)
  }

  predicate Fits32(s: Stats) {
    && s.produced <= UINT32_MAX && s.consumed <= UINT32_MAX && s.underrun <= UINT32_MAX
    && s.overrun <= UINT32_MAX && s.frames <= UINT32_MAX && s.resets <= UINT32_MAX
  }

  predicate WellFormed(r: Ring) {
    0 < r.capacity <= UINT32_MAX && r.delay < r.capacity && |r.contents| <= r.capacity && Fits32(r.stats)
  }

  /** How many samples a push of `samples` drops from the old end. */
  function Lost(r: Ring, samples: seq<Sample>): nat {
    var all := r.contents + samples;
    |all| - |LastN(all, r.capacity)|
  }

  ghost function Pushed(r: Ring, samples: seq<Sample>): (r': Ring)
    requires WellFormed(r)
    ensures WellFormed(r')
  {
    if samples == [] then r
    else
      var kept := LastN(r.contents + samples, r.capacity);
      r.(contents := kept,
         stats := r.stats.(overrun := SaturatingAdd(r.stats.overrun, Lost(r, samples)),
                           produced := SaturatingAdd(r.stats.produced, |samples|),
                           peak := Max(r.stats.peak, |kept|),
                           depth := |kept|))
  }

  /** How many samples a pop of `n` really takes: never into the held-back delay. */
  function Takes(r: Ring, n: nat): nat {
    Min(n, if |r.contents| > r.delay then |r.contents| - r.delay else 0)
  }

  ghost function Popped(r: Ring, n: nat): (r': Ring)
    requires WellFormed(r)
    ensures WellFormed(r')
  {
    if n == 0 then r
    else
      var k := Takes(r, n);
      r.(contents := r.contents[k..],
         stats := r.stats.(underrun := SaturatingAdd(r.stats.underrun, n - k),
                           consumed := SaturatingAdd(r.stats.consumed, k),
                           frames := SaturatingAdd(r.stats.frames, 1),
                           depth := |r.contents| - k))
  }

  ghost function WasReset(r: Ring): (r': Ring)
    requires WellFormed(r)
    ensures WellFormed(r')
  {
    r.(contents := [], stats := r.stats.(depth := 0, resets := SaturatingAdd(r.stats.resets, 1)))
  }

  // ------------------------------------------------------------ the C struct

  function Slot(read: nat, i: nat, capacity: nat): nat {
    if read + i < capacity then read + i else read + i - capacity
  }

  lemma NextSlot(x: nat, capacity: nat)
    requires x < capacity
    ensures (x + 1) % capacity == Slot(x, 1, capacity)
  {
    if x + 1 == capacity {
      DivUnique(x + 1, capacity, 1, 0);
    } else {
      DivUnique(x + 1, capacity, 0, x + 1);
    }
  }

  lemma LastNPlus(s: seq<Sample>, x: Sample, n: nat)
    requires 0 < n
    ensures LastN(s, n - 1) + [x] == LastN(s + [x], n)
  {
  }

  lemma LastNAgain(s: seq<Sample>, x: Sample, n: nat)
    requires 0 < n
    ensures LastN(LastN(s, n) + [x], n) == LastN(s + [x], n)
  {
  }

  lemma OneMoreTaken(start: seq<Sample>, samples: seq<Sample>, i: nat)
    requires i < |samples|
    ensures start + samples[..i + 1] == start + samples[..i] + [samples[i]]
  {
  }

  /** What the ring keeps after the first `n` samples, one turn of the loop at a time. */
  function KeptAfter(start: seq<Sample>, samples: seq<Sample>, n: nat, capacity: nat): (kept: seq<Sample>)
    requires n <= |samples| && |start| <= capacity
    ensures |kept| == Min(|start| + n, capacity)
  {
    if n == 0 then start else LastN(KeptAfter(start, samples, n - 1, capacity) + [samples[n - 1]], capacity)
  }

  lemma {:induction false} KeptIsNewest(start: seq<Sample>, samples: seq<Sample>, n: nat, capacity: nat)
    requires n <= |samples| && |start| <= capacity && 0 < capacity
    ensures KeptAfter(start, samples, n, capacity) == LastN(start + samples[..n], capacity)
  {
    if n == 0 {
      assert start + samples[..0] == start;
    } else {
      KeptIsNewest(start, samples, n - 1, capacity);
      OneMoreTaken(start, samples, n - 1);
      LastNAgain(start + samples[..n - 1], samples[n - 1], capacity);
    }
  }

  lemma AllKept(start: seq<Sample>, samples: seq<Sample>, capacity: nat)
    requires |start| <= capacity && 0 < capacity
    ensures KeptAfter(start, samples, |samples|, capacity) == LastN(start + samples, capacity)
  {
    KeptIsNewest(start, samples, |samples|, capacity);
    assert samples[..|samples|] == samples;
  }

  /** The `count` samples that start at slot `read` of a circular buffer. */
  function Unroll(buffer: seq<Sample>, read: nat, count: nat, capacity: nat): (s: seq<Sample>)
    ensures |s| == count
  {
    seq(count, i requires 0 <= i =>
      if Slot(read, i, capacity) < |buffer| then buffer[Slot(read, i, capacity)] else 0)
  }

  class Reference {
    var storage: array<Sample>
    var capacity: nat
    var delaySamples: nat
    var read: nat
    var write: nat
    var count: nat
    var stats: Stats

    ghost predicate Valid()
      reads this
    {
      && storage.Length == capacity <= UINT32_MAX && delaySamples < capacity
      && read < capacity && count <= capacity && write == Slot(read, count, capacity) < capacity
      && Fits32(stats)
    }

    /** Oldest sample first. */
    ghost function Contents(): (s: seq<Sample>)
      reads this`storage, this`capacity, this`read, this`count, storage
      ensures |s| == count
    {
      Unroll(storage[..], read, count, capacity)
    }

    ghost function Model(): Ring
      reads this, storage
    {
      Ring(Contents(), capacity, delaySamples, stats)
    }

    constructor (buffer: array<Sample>, delay: nat)
      requires delay < buffer.Length <= UINT32_MAX
      ensures Valid() && storage == buffer
      ensures Model() == Ring([], buffer.Length, delay, Stats(0, 0, 0, 0, 0, 0, 0, 0))
    {
      storage, capacity, delaySamples := buffer, buffer.Length, delay;
      read, write, count := 0, 0, 0;
      stats := Stats(0, 0, 0, 0, 0, 0, 0, 0);
    }

    /** vt_aec_reference_init: null stands for the error return. */
    static method Init(buffer: array<Sample>, delay: nat) returns (r: Reference?)
      ensures r == null <==> buffer.Length == 0 || delay >= buffer.Length || buffer.Length > UINT32_MAX
      ensures r != null ==> fresh(r) && r.Valid() && r.storage == buffer
      ensures r != null ==> r.Model() == Ring([], buffer.Length, delay, Stats(0, 0, 0, 0, 0, 0, 0, 0))
    {
      if buffer.Length == 0 || delay >= buffer.Length || buffer.Length > UINT32_MAX {
        return null;
      }
      r := new Reference(buffer, delay);
    }

    method DropOldest()
      requires Valid() && count > 0
      modifies this`read, this`count
      ensures Valid() && Contents() == old(Contents())[1..]
    {
      NextSlot(read, capacity);
      read := (read + 1) % capacity;
      count := count - 1;
    }

    method Append(x: Sample)
      requires Valid() && count < capacity
      modifies this`write, this`count, storage
      ensures Valid() && Contents() == old(Contents()) + [x]
    {
      NextSlot(write, capacity);
      storage[write] := x;
      write := (write + 1) % capacity;
      count := count + 1;
    }

    /** A full ring gives up its oldest sample and counts the overrun. */
    method MakeRoom()
      requires Valid()
      modifies this`read, this`count, this`stats
      ensures Valid() && count < capacity && Contents() == LastN(old(Contents()), capacity - 1)
      ensures stats == old(stats).(overrun := SaturatingAdd(old(stats).overrun, old(count) - count))
    {
      if count == capacity {
        DropOldest();
        var overrun := if stats.overrun == UINT32_MAX then UINT32_MAX else stats.overrun + 1;
        stats := stats.(overrun := overrun);
      }
    }

    /** One turn of the push loop. */
    method PushOne(x: Sample)
      requires Valid()
      modifies this`read, this`write, this`count, this`stats, storage
      ensures Valid() && Contents() == LastN(old(Contents()) + [x], capacity)
      ensures stats == old(stats).(overrun := SaturatingAdd(old(stats).overrun, old(count) + 1 - count))
    {
      ghost var contents := Contents();
      MakeRoom();
      ghost var room := Contents();
      Append(x);
      assert Contents() == room + [x];
      LastNPlus(contents, x, capacity);
    }

    method Push(samples: seq<Sample>) returns (pushed: nat)
      requires Valid()
      modifies this`read, this`write, this`count, this`stats, storage
      ensures Valid() && pushed == |samples|
      ensures Model() == Pushed(old(Model()), samples)
    {
      if |samples| == 0 {
        return 0;
      }
      pushed := 0;
      ghost var start, before := Contents(), stats;
      while pushed < |samples|
        invariant pushed <= |samples| && Valid() && storage == old(storage) && capacity == old(capacity)
        invariant Contents() == KeptAfter(start, samples, pushed, capacity)
        invariant stats == before.(overrun := SaturatingAdd(before.overrun, |start| + pushed - count))
      {
        PushOne(samples[pushed]);
        pushed := pushed + 1;
      }
      AllKept(start, samples, capacity);
      CountPush(pushed);
    }

    /** The statistics at the end of a push. */
    method CountPush(pushed: nat)
      requires Valid()
      modifies this`stats
      ensures Valid() && Contents() == old(Contents())
      ensures stats == old(stats).(produced := SaturatingAdd(old(stats).produced, pushed),
                                   peak := Max(old(stats).peak, count), depth := count)
    {
      stats := stats.(produced := SaturatingAdd(stats.produced, pushed));
      if count > stats.peak {
        stats := stats.(peak := count);
      }
      stats := stats.(depth := count);
    }

    method Pop(destination: array<Sample>, sampleCount: nat) returns (popped: nat)
      requires Valid() && sampleCount <= destination.Length && destination != storage
      modifies this`read, this`count, this`stats, destination
      ensures Valid() && popped == Takes(old(Model()), sampleCount)
      ensures Model() == Popped(old(Model()), sampleCount)
      ensures destination[..sampleCount] == old(Contents())[..popped] + Zeros(sampleCount - popped)
      ensures destination[sampleCount..] == old(destination[sampleCount..])
    {
      if sampleCount == 0 {
        return 0;
      }
      var available := if count > delaySamples then count - delaySamples else 0;
      popped := if available < sampleCount then available else sampleCount;
      Take(destination, popped);
      if popped < sampleCount {
        Pad(destination, popped, sampleCount);
      }
      var underrun :=
        if popped < sampleCount then SaturatingAdd(stats.underrun, sampleCount - popped) else stats.underrun;
      var frames := if stats.frames == UINT32_MAX then UINT32_MAX else stats.frames + 1;
      stats := stats.(underrun := underrun, consumed := SaturatingAdd(stats.consumed, popped),
                      frames := frames, depth := count);
    }

    /** The zero fill of the pop. */
    static method Pad(destination: array<Sample>, popped: nat, sampleCount: nat)
      requires popped <= sampleCount <= destination.Length
      modifies destination
      ensures destination[..sampleCount] == old(destination[..popped]) + Zeros(sampleCount - popped)
      ensures destination[sampleCount..] == old(destination[sampleCount..])
    {
      forall i | popped <= i < sampleCount { destination[i] := 0; }
    }

    /** The copy loop of the pop. */
    method Take(destination: array<Sample>, popped: nat)
      requires Valid() && popped <= count && popped <= destination.Length && destination != storage
      modifies this`read, this`count, destination
      ensures Valid() && Contents() == old(Contents())[popped..]
      ensures destination[..popped] == old(Contents())[..popped]
      ensures destination[popped..] == old(destination[popped..])
    {
      var index := 0;
      while index < popped
        invariant index <= popped && count == old(count) - index
        invariant Valid() && Contents() == old(Contents())[index..]
        invariant destination[..index] == old(Contents())[..index]
        invariant destination[index..] == old(destination[index..])
      {
        assert storage[read] == Contents()[0];
        destination[index] := storage[read];
        DropOldest();
        index := index + 1;
      }
    }

    method Reset()
      requires Valid()
      modifies this`read, this`write, this`count, this`stats
      ensures Valid() && Model() == WasReset(old(Model()))
    {
      read, write, count := 0, 0, 0;
      stats := stats.(depth := 0);
      stats := stats.(resets := if stats.resets == UINT32_MAX then UINT32_MAX else stats.resets + 1);
    }
  }

  // ---------------------------------------------------------------- whole runs

  datatype Op = Push(samples: seq<Sample>) | Pop(n: nat) | Reset

  /** A run with its unbounded true totals and where in the pushed stream each popped sample came from. */
  datatype Trace = Trace(
    ring: Ring, pushed: seq<Sample>, popped: seq<Sample>, origins: seq<nat>,
    overrun: nat, discarded: nat, padded: nat, frames: nat, resets: nat, peak: nat)

  function Fresh(capacity: nat, delay: nat): Trace {
    Trace(Ring([], capacity, delay, Stats(0, 0, 0, 0, 0, 0, 0, 0)), [], [], [], 0, 0, 0, 0, 0, 0)
  }

  ghost function Advance(t: Trace, op: Op): Trace
    requires WellFormed(t.ring)
  {
    match op
    case Push(samples) =>
      var ring := Pushed(t.ring, samples);
      t.(ring := ring, pushed := t.pushed + samples, overrun := t.overrun + Lost(t.ring, samples),
         peak := Max(t.peak, |ring.contents|))
    case Pop(n) =>
      var k := Takes(t.ring, n);
      var first := |t.pushed| - |t.ring.contents|;
      t.(ring := Popped(t.ring, n), popped := t.popped + t.ring.contents[..k],
         origins := t.origins + seq(k, i => if first + i >= 0 then first + i else 0),
         padded := t.padded + n - k, frames := t.frames + if n == 0 then 0 else 1)
    case Reset =>
      t.(ring := WasReset(t.ring), discarded := t.discarded + |t.ring.contents|, resets := t.resets + 1)
  }

  ghost function Run(capacity: nat, delay: nat, ops: seq<Op>): (t: Trace)
    requires delay < capacity <= UINT32_MAX
    ensures WellFormed(t.ring)
  {
    if ops == [] then Fresh(capacity, delay)
    else Advance(Run(capacity, delay, ops[..|ops| - 1]), ops[|ops| - 1])
  }

  /** Every sample pushed is popped, overrun, discarded by a reset or still held. */
  ghost predicate Conserved(t: Trace) {
    |t.pushed| == |t.popped| + t.overrun + t.discarded + |t.ring.contents|
  }

  /** The ring holds the newest end of the stream, and what was popped left it in order, each sample once. */
  ghost predicate InOrder(t: Trace) {
    var first := |t.pushed| - |t.ring.contents|;
    && first >= 0 && t.ring.contents == t.pushed[first..]
    && |t.origins| == |t.popped|
    && (forall i :: 0 <= i < |t.origins| ==> t.origins[i] < first && t.popped[i] == t.pushed[t.origins[i]])
    && (forall i, j :: 0 <= i < j < |t.origins| ==> t.origins[i] < t.origins[j])
  }

  ghost predicate StatsExact(t: Trace) {
    && |t.ring.contents| <= t.peak
    && t.ring.stats == Stats(|t.ring.contents|, t.peak, Capped(|t.pushed|), Capped(|t.popped|),
                          Capped(t.padded), Capped(t.overrun), Capped(t.frames), Capped(t.resets))
  }

  lemma AdvanceConserves(t: Trace, op: Op)
    requires WellFormed(t.ring) && Conserved(t)
    ensures Conserved(Advance(t, op))
  {
  }

  lemma AdvanceKeepsOrder(t: Trace, op: Op)
    requires WellFormed(t.ring) && InOrder(t)
    ensures InOrder(Advance(t, op))
  {
    match op
    case Push(samples) => PushKeepsOrder(t, samples);
    case Pop(n) => PopKeepsOrder(t, n);
    case Reset =>
  }

  /** `s` is how the stream ends. */
  predicate EndsWith(stream: seq<Sample>, s: seq<Sample>) {
    |s| <= |stream| && s == stream[|stream| - |s|..]
  }

  lemma EndGrows(stream: seq<Sample>, s: seq<Sample>, more: seq<Sample>)
    requires EndsWith(stream, s)
    ensures EndsWith(stream + more, s + more)
  {
  }

  lemma EndOfEnd(stream: seq<Sample>, s: seq<Sample>, n: nat)
    requires EndsWith(stream, s)
    ensures EndsWith(stream, LastN(s, n)) && |LastN(s, n)| <= |s|
  {
  }

  /** What was taken from before `first` is still there when the stream goes on. */
  lemma TakenStayTaken(pushed: seq<Sample>, more: seq<Sample>, popped: seq<Sample>, origins: seq<nat>, first: nat)
    requires first <= |pushed| && |origins| == |popped|
    requires forall i :: 0 <= i < |origins| ==> origins[i] < first && popped[i] == pushed[origins[i]]
    ensures forall i :: 0 <= i < |origins| ==> popped[i] == (pushed + more)[origins[i]]
  {
  }

  lemma PushKeepsOrder(t: Trace, samples: seq<Sample>)
    requires WellFormed(t.ring) && InOrder(t)
    ensures InOrder(Advance(t, Push(samples)))
  {
    var t' := Advance(t, Push(samples));
    EndGrows(t.pushed, t.ring.contents, samples);
    EndOfEnd(t'.pushed, t.ring.contents + samples, t.ring.capacity);
    TakenStayTaken(t.pushed, samples, t.popped, t.origins, |t.pushed| - |t.ring.contents|);
  }

  lemma PopKeepsOrder(t: Trace, n: nat)
    requires WellFormed(t.ring) && InOrder(t)
    ensures InOrder(Advance(t, Pop(n)))
  {
    var t' := Advance(t, Pop(n));
    var k := Takes(t.ring, n);
    var first := |t.pushed| - |t.ring.contents|;
    assert t'.ring.contents == t.pushed[first + k..];
    forall i | 0 <= i < |t'.origins|
      ensures t'.origins[i] < first + k && t'.popped[i] == t.pushed[t'.origins[i]]
    {
      if i < |t.origins| {
        assert t'.origins[i] == t.origins[i] && t'.popped[i] == t.popped[i];
      } else {
        assert t'.origins[i] == first + (i - |t.origins|) && t'.popped[i] == t.ring.contents[i - |t.origins|];
      }
    }
  }

  lemma AdvanceKeepsStats(t: Trace, op: Op)
    requires WellFormed(t.ring) && StatsExact(t)
    ensures StatsExact(Advance(t, op))
  {
  }

  lemma {:induction false} RunIsExact(capacity: nat, delay: nat, ops: seq<Op>)
    requires delay < capacity <= UINT32_MAX
    ensures var t := Run(capacity, delay, ops);
      Conserved(t) && InOrder(t) && StatsExact(t) && |t.ring.contents| <= capacity
      && t.ring.capacity == capacity && t.ring.delay == delay
  {
    if ops != [] {
      var before := Run(capacity, delay, ops[..|ops| - 1]);
      RunIsExact(capacity, delay, ops[..|ops| - 1]);
      AdvanceConserves(before, ops[|ops| - 1]);
      AdvanceKeepsOrder(before, ops[|ops| - 1]);
      AdvanceKeepsStats(before, ops[|ops| - 1]);
    }
  }

  /**
   * What each operation moves, by the totals of the run: a pop takes all there is beyond the delay, up to what it asks
   * for, and a push pushes out just what does not fit.
   */
  lemma MovesAsMuchAsItCan(capacity: nat, delay: nat, ops: seq<Op>, op: Op)
    requires delay < capacity <= UINT32_MAX
    ensures var t := Run(capacity, delay, ops); var t' := Advance(t, op);
      var held := |t.pushed| - |t.popped| - t.overrun - t.discarded;
      match op
      case Push(samples) =>
        t'.pushed == t.pushed + samples && t'.popped == t.popped && t'.discarded == t.discarded
        && t'.overrun - t.overrun == Max(0, held + |samples| - capacity)
      case Pop(n) =>
        t'.pushed == t.pushed && t'.overrun == t.overrun && t'.discarded == t.discarded
        && |t'.popped| - |t.popped| == Min(n, Max(0, held - delay))
      case Reset =>
        t'.pushed == t.pushed && t'.popped == t.popped && t'.overrun == t.overrun
        && t'.discarded - t.discarded == held
  {
    RunIsExact(capacity, delay, ops);
  }

  /** With no overrun and no reset nothing is lost: popped then held is exactly what was pushed. */
  lemma {:induction false} LosslessRun(capacity: nat, delay: nat, ops: seq<Op>)
    requires delay < capacity <= UINT32_MAX
    requires Run(capacity, delay, ops).overrun == 0 && Reset !in ops
    ensures var t := Run(capacity, delay, ops); t.popped + t.ring.contents == t.pushed && t.popped <= t.pushed
  {
    if ops != [] {
      var init, last := ops[..|ops| - 1], ops[|ops| - 1];
      assert last in ops && forall op :: op in init ==> op in ops;
      LosslessRun(capacity, delay, init);
      var t := Run(capacity, delay, init);
      LosslessStep(t, last);
    }
  }

  lemma LosslessStep(t: Trace, op: Op)
    requires WellFormed(t.ring) && t.popped + t.ring.contents == t.pushed
    requires op != Reset && Advance(t, op).overrun == t.overrun
    ensures var t' := Advance(t, op); t'.popped + t'.ring.contents == t'.pushed
  {
    match op
    case Push(samples) =>
      assert LastN(t.ring.contents + samples, t.ring.capacity) == t.ring.contents + samples;
      assert t.popped + (t.ring.contents + samples) == t.pushed + samples;
    case Pop(n) =>
      var k := Takes(t.ring, n);
      assert t.popped + t.ring.contents[..k] + t.ring.contents[k..] == t.popped + t.ring.contents;
  }

  /** A pop never reaches into the newest `delay` samples. */
  lemma {:induction false} DelayHeldBack(capacity: nat, delay: nat, ops: seq<Op>, n: nat)
    requires delay < capacity <= UINT32_MAX
    ensures var t := Run(capacity, delay, ops); var t' := Advance(t, Pop(n));
      && |t'.ring.contents| >= Min(delay, |t.ring.contents|)
      && forall i :: |t.origins| <= i < |t'.origins| ==> t'.origins[i] + delay < |t'.pushed|
  {
    RunIsExact(capacity, delay, ops);
  }
}
