/** The streaming resampler in front of the echo canceller (veetee_aec_reference.c, veetee_aec.c). */
module AecResampler {
  import opened Arithmetic

  const SIZE_MAX := 0xFFFF_FFFF // size_t is 32 bits wide on the target

  /** `n` samples measured in ticks of the 16 kHz echo-canceller rate. */
  function Ticks(n: nat): nat {
    n * 16000
  }

  type Sample = x: int | -32768 <= x <= 32767

  // ---------------------------------------------------------------- one call

  function Clamp(v: int): Sample {
    if v > 32767 then 32767 else if v < -32768 then -32768 else v
  }

  /** The weighted mean of two neighbours, before any clamp. */
  function Interpolate(first: int, second: int, target: nat, weight: nat): int
    requires 0 < target && weight < target
  {
    TruncDiv(first * (target - weight) + second * weight, target)
  }

  /** The output the loop computes when its phase counter stands at `phase`. */
  function SampleAt(input: seq<Sample>, target: nat, phase: nat): Sample
    requires 0 < target
  {
    var index := phase / target;
    if index >= |input| then 0
    else
      var first := input[index];
      var second := if index + 1 < |input| then input[index + 1] else first;
      Clamp(Interpolate(first, second, target, phase % target))
  }

  /** How many steps of `source` fit between `phase` and `span`. */
  function Steps(phase: nat, span: nat, source: nat): nat
    requires 0 < source
  {
    if phase < span then CeilDiv(span - phase, source) else 0
  }

  lemma StepBelow(phase: nat, span: nat, source: nat, i: nat)
    requires 0 < source && i < Steps(phase, span, source)
    ensures phase + i * source < span
  {
    CeilDivBounds(span - phase, source);
    MulMono(i, Steps(phase, span, source) - 1, source);
  }

  datatype Resampled = Resampled(output: seq<Sample>, phase: nat)

  /** What one call returns and the phase it leaves behind. */
  ghost function Process(source: nat, target: nat, phase: nat, input: seq<Sample>, capacity: nat): Resampled
    requires 0 < source && 0 < target
  {
    if input == [] || capacity == 0 then Resampled([], phase)
    else if source == target then Resampled(input[..Min(|input|, capacity)], phase)
    else if |input| > SIZE_MAX / target then Resampled([], phase)
    else
      var span := |input| * target;
      var produced := Min(Steps(phase, span, source), capacity);
      var after := phase + produced * source;
      Resampled(Emit(input, source, target, phase, produced), if after >= span then after - span else 0)
  }

  function Emit(input: seq<Sample>, source: nat, target: nat, phase: nat, count: nat): (out: seq<Sample>)
    requires 0 < target
    ensures |out| == count
  {
    seq(count, i requires 0 <= i => SampleAt(input, target, phase + i * source))
  }

  lemma EmitNext(input: seq<Sample>, source: nat, target: nat, phase: nat, count: nat)
    requires 0 < target
    ensures Emit(input, source, target, phase, count + 1)
         == Emit(input, source, target, phase, count) + [SampleAt(input, target, phase + count * source)]
  {
  }

  class Resampler {
    var sourceRate: nat
    var targetRate: nat
    var phase: nat
    var previous: Sample

    constructor (source: nat, target: nat)
      requires 0 < source && 0 < target
      ensures sourceRate == source && targetRate == target && phase == 0 && previous == 0
    {
      sourceRate, targetRate, phase, previous := source, target, 0, 0;
    }

    method Reset()
      modifies this`phase, this`previous
      ensures phase == 0 && previous == 0
    {
      phase, previous := 0, 0;
    }

    method Run(input: seq<Sample>, output: array<Sample>, capacity: nat) returns (produced: nat)
      requires capacity <= output.Length
      modifies this`phase, this`previous, output
      ensures sourceRate == 0 || targetRate == 0 ==> produced == 0 && phase == old(phase)
      ensures 0 < sourceRate && 0 < targetRate ==>
        var r := Process(sourceRate, targetRate, old(phase), input, capacity);
        produced == |r.output| && output[..produced] == r.output && phase == r.phase
      ensures produced <= capacity && output[produced..] == old(output[produced..])
    {
      if |input| == 0 || capacity == 0 || sourceRate == 0 || targetRate == 0 {
        return 0;
      }
      if sourceRate == targetRate {
        produced := Min(|input|, capacity);
        forall i | 0 <= i < produced { output[i] := input[i]; }
        previous := input[|input| - 1];
        assert output[..produced] == input[..produced];
        return;
      }
      if |input| > SIZE_MAX / targetRate {
        return 0;
      }
      produced := Resample(input, output, capacity);
      previous := input[|input| - 1];
    }

    /** The interpolation loop of the unequal-rate case. */
    method Resample(input: seq<Sample>, output: array<Sample>, capacity: nat) returns (produced: nat)
      requires 0 < capacity <= output.Length && |input| > 0
      requires 0 < sourceRate && 0 < targetRate
      modifies this`phase, output
      ensures produced == Min(Steps(old(phase), |input| * targetRate, sourceRate), capacity)
      ensures output[..produced] == Emit(input, sourceRate, targetRate, old(phase), produced)
      ensures output[produced..] == old(output[produced..])
      ensures var span := |input| * targetRate; var after := old(phase) + produced * sourceRate;
        phase == if after >= span then after - span else 0
    {
      var inputSpan := |input| * targetRate;
      var at := phase;
      produced := 0;
      StartSteps(phase, inputSpan, sourceRate);
      while at < inputSpan && produced < capacity
        invariant produced <= capacity && produced <= Steps(phase, inputSpan, sourceRate)
        invariant at == phase + produced * sourceRate
        invariant at < inputSpan <==> produced < Steps(phase, inputSpan, sourceRate)
        invariant output[..produced] == Emit(input, sourceRate, targetRate, phase, produced)
        invariant output[produced..] == old(output[produced..])
        invariant phase == old(phase)
        decreases Steps(phase, inputSpan, sourceRate) - produced
      {
        DivBelow(at, |input|, targetRate);
        var index := at / targetRate;
        var fraction := at % targetRate;
        var first := input[index];
        var second := if index + 1 < |input| then input[index + 1] else first;
        var value := Clamp(Interpolate(first, second, targetRate, fraction));
        assert value == SampleAt(input, targetRate, at);
        EmitNext(input, sourceRate, targetRate, phase, produced);
        NextStep(phase, inputSpan, sourceRate, produced);
        output[produced] := value;
        produced := produced + 1;
        at := at + sourceRate;
      }
      phase := if at >= inputSpan then at - inputSpan else 0;
    }
  }

  lemma StartSteps(phase: nat, span: nat, source: nat)
    requires 0 < source
    ensures phase < span <==> 0 < Steps(phase, span, source)
  {
    if phase < span {
      CeilDivBounds(span - phase, source);
    }
  }

  lemma NextStep(phase: nat, span: nat, source: nat, i: nat)
    requires 0 < source && i < Steps(phase, span, source)
    ensures phase + (i + 1) * source == phase + i * source + source
    ensures phase + (i + 1) * source < span <==> i + 1 < Steps(phase, span, source)
  {
    var k := Steps(phase, span, source);
    CeilDivBounds(span - phase, source);
    if i + 1 < k {
      StepBelow(phase, span, source, i + 1);
    } else {
      assert i + 1 == k;
    }
  }

  // ------------------------------------------------------- the stream as cut

  function Flatten(chunks: seq<seq<Sample>>): seq<Sample> {
    if chunks == [] then [] else Flatten(chunks[..|chunks| - 1]) + chunks[|chunks| - 1]
  }

  /** Whether stream position `l` is the last sample of the chunk that carries it. */
  predicate EndsChunk(chunks: seq<seq<Sample>>, l: nat) {
    if chunks == [] then false
    else
      var init := chunks[..|chunks| - 1];
      if l < |Flatten(init)| then EndsChunk(init, l) else l + 1 == |Flatten(chunks)|
  }

  /** The calls of a whole stream, one per chunk, carrying the phase. */
  ghost function RunChunks(source: nat, target: nat, capacity: nat, chunks: seq<seq<Sample>>): Resampled
    requires 0 < source && 0 < target
  {
    if chunks == [] then Resampled([], 0)
    else
      var before := RunChunks(source, target, capacity, chunks[..|chunks| - 1]);
      var last := Process(source, target, before.phase, chunks[|chunks| - 1], capacity);
      Resampled(before.output + last.output, last.phase)
  }

  // ----------------------------------------------------------- buffer sizing

  /** The division that ends the sizing in vt_aec_init, in 32-bit unsigned arithmetic. */
  function CapacityForTicks(need: nat, source: nat): (capacity: nat)
    requires 0 < source
    ensures capacity >= 2
  {
    var wrapped: nat := (need + source - 1) % 0x1_0000_0000;
    var whole: nat := wrapped / source;
    whole + 2
  }

  /** `resample_capacity` of vt_aec_init. */
  function ResampleCapacity(maxFrame: nat, source: nat): nat
    requires 0 < source
  {
    CapacityForTicks(Ticks(maxFrame), source)
  }

  predicate FramesFit(maxFrame: nat, chunks: seq<seq<Sample>>) {
    forall i :: 0 <= i < |chunks| ==> |chunks[i]| <= maxFrame
  }

  /** What a caller can check before vt_aec_init: the sizes survive 32-bit arithmetic. */
  predicate SizesFit(maxFrame: nat, source: nat) {
    && Ticks(maxFrame) <= SIZE_MAX
    && (Ticks(maxFrame) + source - 1 <= SIZE_MAX || Ticks(maxFrame) <= 2 * source)
  }

  /** One call resampled every step of its chunk and kept the exact phase. */
  ghost predicate Complete(source: nat, phase: nat, input: seq<Sample>, capacity: nat)
    requires 0 < source
  {
    var r := Process(source, 16000, phase, input, capacity);
    var steps := Steps(phase, Ticks(|input|), source);
    |r.output| == steps && r.phase == phase + steps * source - Ticks(|input|)
  }

  lemma StepsReachSpan(phase: nat, span: nat, source: nat)
    requires 0 < source
    ensures phase + Steps(phase, span, source) * source >= span
    ensures phase < source ==> phase + Steps(phase, span, source) * source < span + source
    ensures Steps(phase, span, source) <= CeilDiv(span, source)
  {
    var k := Steps(phase, span, source);
    if phase < span {
      CeilDivBounds(span - phase, source);
      CeilDivMono(span - phase, span, source);
      assert (k - 1) * source == k * source - source;
    }
  }

  lemma AtMostTwoSteps(need: nat, source: nat)
    requires 0 < source
    ensures CeilDiv(need, source) <= 2 <==> need <= 2 * source
  {
    var k := CeilDiv(need, source);
    CeilDivBounds(need, source);
    if k > 2 {
      MulMono(2, k - 1, source);
    } else {
      MulMono(k, 2, source);
    }
  }

  lemma CapacityWithoutWrap(need: nat, source: nat)
    requires 0 < source && need + source - 1 <= SIZE_MAX
    ensures CapacityForTicks(need, source) == CeilDiv(need, source) + 2
  {
    assert (need + source - 1) % 0x1_0000_0000 == need + source - 1;
  }

  /** A wrapped sum is below one source step, so only the two spare slots are left. */
  lemma CapacityOfWrappedSum(need: nat, source: nat)
    requires 0 < source && need <= SIZE_MAX < need + source - 1 && source <= SIZE_MAX
    ensures CapacityForTicks(need, source) == 2
  {
    var wrapped := need + source - 1 - 0x1_0000_0000;
    assert (need + source - 1) % 0x1_0000_0000 == wrapped;
    DivUnique(wrapped, source, 0, wrapped);
  }

  lemma CapacityCovers(need: nat, source: nat)
    requires 0 < source && (need + source - 1 <= SIZE_MAX || need <= 2 * source)
    ensures CeilDiv(need, source) <= CapacityForTicks(need, source)
  {
    if need + source - 1 <= SIZE_MAX {
      CapacityWithoutWrap(need, source);
    } else {
      AtMostTwoSteps(need, source);
    }
  }

  lemma EqualRateSteps(n: nat)
    ensures Steps(0, Ticks(n), 16000) == n
  {
  }

  /** A buffer sized for the longest frame never truncates a call, from any carried phase. */
  lemma SizedCallIsComplete(maxFrame: nat, source: nat, phase: nat, input: seq<Sample>)
    requires 0 < source && SizesFit(maxFrame, source) && |input| <= maxFrame
    requires phase < source && (source == 16000 ==> phase == 0)
    ensures Complete(source, phase, input, ResampleCapacity(maxFrame, source))
  {
    CapacityCovers(Ticks(maxFrame), source);
    CeilDivMono(Ticks(|input|), Ticks(maxFrame), source);
    StepsReachSpan(phase, Ticks(|input|), source);
    if source == 16000 {
      EqualRateSteps(|input|);
    }
  }

  lemma UnfitCallIsTruncated(maxFrame: nat, source: nat, input: seq<Sample>)
    requires 0 < source <= 0x7FFF_FFFF && 0 < maxFrame && |input| == maxFrame && !SizesFit(maxFrame, source)
    ensures !Complete(source, 0, input, ResampleCapacity(maxFrame, source))
  {
    var need := Ticks(maxFrame);
    CeilDivBounds(need, source);
    if source == 16000 {
      EqualRateSteps(maxFrame);
    } else if need <= SIZE_MAX {
      CapacityOfWrappedSum(need, source);
      AtMostTwoSteps(need, source);
    }
  }

  /** Exactly when the sizing of vt_aec_init serves every frame up to the announced maximum. */
  lemma SizingIsExact(maxFrame: nat, source: nat)
    requires 0 < source <= 0x7FFF_FFFF && 0 < maxFrame // the rate is a positive C int
    ensures SizesFit(maxFrame, source) <==>
      forall phase: nat, input: seq<Sample> ::
        phase < source && (source == 16000 ==> phase == 0) && |input| <= maxFrame ==>
        Complete(source, phase, input, ResampleCapacity(maxFrame, source))
  {
    if SizesFit(maxFrame, source) {
      forall phase: nat, input: seq<Sample> |
        phase < source && (source == 16000 ==> phase == 0) && |input| <= maxFrame
        ensures Complete(source, phase, input, ResampleCapacity(maxFrame, source))
      {
        SizedCallIsComplete(maxFrame, source, phase, input);
      }
    } else {
      var silence: seq<Sample> := seq(maxFrame, _ => 0);
      UnfitCallIsTruncated(maxFrame, source, silence);
      assert !Complete(source, 0, silence, ResampleCapacity(maxFrame, source));
    }
  }

  // ------------------------------------------------------------ main results

  lemma CallLength(source: nat, total: nat, span: nat, phase: nat, k: nat)
    requires 0 < source && k == CeilDiv(total, source) && phase == k * source - total
    ensures k + Steps(phase, span, source) == CeilDiv(total + span, source)
  {
    var s := Steps(phase, span, source);
    CeilDivBounds(total, source);
    StepsReachSpan(phase, span, source);
    assert (k - 1) * source == k * source - source;
    assert (k + s) * source == k * source + s * source && (k + s - 1) * source == k * source + s * source - source;
    if phase < span {
      CeilDivBounds(span - phase, source);
      assert (s - 1) * source == s * source - source;
    }
    CeilDivUnique(total + span, source, k + s);
  }

  /** The bookkeeping a run has kept after `n` inputs and `k` outputs. */
  predicate OnGrid(source: nat, n: nat, k: nat, phase: nat)
    requires 0 < source
  {
    && k == CeilDiv(Ticks(n), source)
    && phase == k * source - Ticks(n)
    && phase < source
    && (source == 16000 ==> phase == 0)
  }

  lemma OnGridCopy(n: nat, k: nat, m: nat)
    requires OnGrid(16000, n, k, 0)
    ensures Steps(0, Ticks(m), 16000) * 16000 == Ticks(m) && OnGrid(16000, n + m, k + Steps(0, Ticks(m), 16000), 0)
  {
    EqualRateSteps(m);
    DivUnique(Ticks(n) + 15999, 16000, n, 15999);
    DivUnique(Ticks(n + m) + 15999, 16000, n + m, 15999);
  }

  lemma Overshoot(source: nat, k: nat, s: nat, phase: nat, total: nat, span: nat)
    requires phase == k * source - total
    ensures phase + s * source - span == (k + s) * source - (total + span)
  {
  }

  lemma OnGridStep(source: nat, n: nat, k: nat, phase: nat, m: nat)
    requires 0 < source && OnGrid(source, n, k, phase)
    ensures var s := Steps(phase, Ticks(m), source);
      phase + s * source >= Ticks(m) && OnGrid(source, n + m, k + s, phase + s * source - Ticks(m))
  {
    if source == 16000 {
      OnGridCopy(n, k, m);
    } else {
      var s := Steps(phase, Ticks(m), source);
      CallLength(source, Ticks(n), Ticks(m), phase, k);
      StepsReachSpan(phase, Ticks(m), source);
      Overshoot(source, k, s, phase, Ticks(n), Ticks(m));
    }
  }

  /** After N inputs exactly ceil(N*T/S) samples are out and the carried phase is the exact overshoot. */
  lemma {:induction false} StreamLength(maxFrame: nat, source: nat, chunks: seq<seq<Sample>>)
    requires 0 < source && SizesFit(maxFrame, source)
    requires FramesFit(maxFrame, chunks)
    ensures var r := RunChunks(source, 16000, ResampleCapacity(maxFrame, source), chunks);
      OnGrid(source, |Flatten(chunks)|, |r.output|, r.phase)
  {
    if chunks == [] {
      DivUnique(source - 1, source, 0, source - 1);
    } else {
      var init, last := chunks[..|chunks| - 1], chunks[|chunks| - 1];
      StreamLength(maxFrame, source, init);
      var before := RunChunks(source, 16000, ResampleCapacity(maxFrame, source), init);
      SizedCallIsComplete(maxFrame, source, before.phase, last);
      OnGridStep(source, |Flatten(init)|, |before.output|, before.phase, |last|);
    }
  }

  /** The right neighbour of position `l`, which is `l` itself when held. */
  function RightOf(stream: seq<Sample>, l: nat, held: bool): Sample
    requires l < |stream|
  {
    if held || l + 1 == |stream| then stream[l] else stream[l + 1]
  }

  /** Output `k` of an unbroken stream: left index floor(k*S/T), weight k*S mod T. */
  function Ideal(stream: seq<Sample>, position: nat, held: bool): int
    requires position / 16000 < |stream|
  {
    var l := position / 16000;
    Interpolate(stream[l], RightOf(stream, l, held), 16000, position % 16000)
  }

  /** Every ideal output lies between its two neighbours, so the clamps never act. */
  lemma IdealBetween(stream: seq<Sample>, position: nat, held: bool)
    requires position / 16000 < |stream|
    ensures var l := position / 16000; var right := RightOf(stream, l, held);
      && Min(stream[l], right) <= Ideal(stream, position, held) <= Max(stream[l], right)
      && Clamp(Ideal(stream, position, held)) == Ideal(stream, position, held)
  {
    var l := position / 16000;
    InterpolateBetween(stream[l], RightOf(stream, l, held), 16000, position % 16000);
  }

  /** The interpolation never leaves the interval spanned by its two neighbours. */
  lemma InterpolateBetween(first: int, second: int, target: nat, weight: nat)
    requires 0 < target && weight < target
    ensures Min(first, second) <= Interpolate(first, second, target, weight) <= Max(first, second)
  {
    var lo, hi := Min(first, second), Max(first, second);
    var sum := first * (target - weight) + second * weight;
    MulMono(lo, first, target - weight);
    MulMono(lo, second, weight);
    MulMono(first, hi, target - weight);
    MulMono(second, hi, weight);
    assert lo * (target - weight) + lo * weight == lo * target;
    assert hi * (target - weight) + hi * weight == hi * target;
    TruncDivBetween(sum, target, lo, hi);
  }

  lemma {:induction false} EndOfStreamEndsChunk(chunks: seq<seq<Sample>>, l: nat)
    requires l + 1 == |Flatten(chunks)|
    ensures EndsChunk(chunks, l)
  {
    var init := chunks[..|chunks| - 1];
    if l < |Flatten(init)| {
      EndOfStreamEndsChunk(init, l);
    }
  }

  /** `v` is what the unbroken stream has at `position`, the right neighbour held only at a chunk's last sample. */
  predicate IsIdeal(chunks: seq<seq<Sample>>, position: nat, v: int) {
    var l := position / 16000;
    l < |Flatten(chunks)| && v == Ideal(Flatten(chunks), position, EndsChunk(chunks, l))
  }

  /** A later chunk does not change an output whose left neighbour came earlier. */
  lemma IdealOfPrefix(chunks: seq<seq<Sample>>, position: nat, v: int)
    requires chunks != [] && IsIdeal(chunks[..|chunks| - 1], position, v)
    ensures IsIdeal(chunks, position, v)
  {
    var init := chunks[..|chunks| - 1];
    var l := position / 16000;
    if l + 1 == |Flatten(init)| {
      EndOfStreamEndsChunk(init, l);
    }
  }

  /** What the loop emits for the newest chunk is the ideal output of the whole stream. */
  lemma FreshSample(chunks: seq<seq<Sample>>, at: nat)
    requires chunks != [] && at < Ticks(|chunks[|chunks| - 1]|)
    ensures IsIdeal(chunks, at + Ticks(|Flatten(chunks[..|chunks| - 1])|), SampleAt(chunks[|chunks| - 1], 16000, at))
  {
    var init, last := chunks[..|chunks| - 1], chunks[|chunks| - 1];
    var n := |Flatten(init)|;
    var position := at + Ticks(n);
    var l := position / 16000;
    assert l == at / 16000 + n && position % 16000 == at % 16000;
    assert Flatten(chunks)[l] == last[at / 16000];
    assert EndsChunk(chunks, l) <==> l + 1 == |Flatten(chunks)|;
    IdealBetween(Flatten(chunks), position, EndsChunk(chunks, l));
  }

  /** Every output of a chunked run is the ideal one of the concatenated stream. */
  lemma {:induction false} StreamSamples(maxFrame: nat, source: nat, chunks: seq<seq<Sample>>, k: nat)
    requires 0 < source && SizesFit(maxFrame, source)
    requires FramesFit(maxFrame, chunks)
    requires k < |RunChunks(source, 16000, ResampleCapacity(maxFrame, source), chunks).output|
    ensures IsIdeal(chunks, k * source, RunChunks(source, 16000, ResampleCapacity(maxFrame, source), chunks).output[k])
  {
    var init := chunks[..|chunks| - 1];
    var before := RunChunks(source, 16000, ResampleCapacity(maxFrame, source), init);
    StreamLength(maxFrame, source, init);
    if k < |before.output| {
      var v := before.output[k];
      StreamSamples(maxFrame, source, init, k);
      IdealOfPrefix(chunks, k * source, v);
      assert RunChunks(source, 16000, ResampleCapacity(maxFrame, source), chunks).output[k] == v;
    } else {
      NewestSamples(maxFrame, source, chunks, |before.output|, before.phase, k);
    }
  }

  /** `v` is the mean of `first` and `second`, the latter weighed by `weight` in 16000, cut toward zero. */
  predicate IsCutMean(first: int, second: int, weight: nat, v: int) {
    var sum := first * (16000 - weight) + second * weight;
    && (sum >= 0 ==> v * 16000 <= sum < (v + 1) * 16000)
    && (sum <= 0 ==> (v - 1) * 16000 < sum <= v * 16000)
  }

  /** `v` is that mean of the two samples of the concatenated stream around `position`. */
  predicate IsCutMeanAt(chunks: seq<seq<Sample>>, position: nat, v: int) {
    var stream, l := Flatten(chunks), position / 16000;
    && l < |stream| && (!EndsChunk(chunks, l) ==> l + 1 < |stream|)
    && IsCutMean(stream[l], if EndsChunk(chunks, l) then stream[l] else stream[l + 1], position % 16000, v)
  }

  lemma IdealIsCutMean(chunks: seq<seq<Sample>>, position: nat, v: int)
    requires IsIdeal(chunks, position, v)
    ensures IsCutMeanAt(chunks, position, v)
  {
    var stream, l := Flatten(chunks), position / 16000;
    if l + 1 == |stream| {
      EndOfStreamEndsChunk(chunks, l);
    }
    InterpolateCuts(stream[l], RightOf(stream, l, EndsChunk(chunks, l)), position % 16000);
  }

  /** The value of every output of a chunked run, `position` being where output `k` lies. */
  lemma OutputIsCutMean(maxFrame: nat, source: nat, chunks: seq<seq<Sample>>, k: nat, position: nat)
    requires 0 < source && SizesFit(maxFrame, source) && FramesFit(maxFrame, chunks) && position == k * source
    requires k < |RunChunks(source, 16000, ResampleCapacity(maxFrame, source), chunks).output|
    ensures var run := RunChunks(source, 16000, ResampleCapacity(maxFrame, source), chunks);
      IsCutMeanAt(chunks, position, run.output[k])
  {
    StreamSamples(maxFrame, source, chunks, k);
    IdealIsCutMean(chunks, position, RunChunks(source, 16000, ResampleCapacity(maxFrame, source), chunks).output[k]);
  }

  lemma InterpolateCuts(first: int, second: int, weight: nat)
    requires weight < 16000
    ensures IsCutMean(first, second, weight, Interpolate(first, second, 16000, weight))
  {
    TruncDivRounds(first * (16000 - weight) + second * weight, 16000);
  }

  lemma NewestSamples(maxFrame: nat, source: nat, chunks: seq<seq<Sample>>, count: nat, phase: nat, k: nat)
    requires 0 < source && SizesFit(maxFrame, source)
    requires chunks != [] && |chunks[|chunks| - 1]| <= maxFrame
    requires OnGrid(source, |Flatten(chunks[..|chunks| - 1])|, count, phase)
    requires var call := Process(source, 16000, phase, chunks[|chunks| - 1], ResampleCapacity(maxFrame, source));
      count <= k < count + |call.output|
    ensures var call := Process(source, 16000, phase, chunks[|chunks| - 1], ResampleCapacity(maxFrame, source));
      IsIdeal(chunks, k * source, call.output[k - count])
  {
    var last := chunks[|chunks| - 1];
    SizedCallIsComplete(maxFrame, source, phase, last);
    FreshOutput(source, phase, last, ResampleCapacity(maxFrame, source), k - count);
    FreshPosition(source, |Flatten(chunks[..|chunks| - 1])|, count, phase, |last|, k);
    FreshSample(chunks, phase + (k - count) * source);
  }

  lemma FreshPosition(source: nat, n: nat, count: nat, phase: nat, m: nat, k: nat)
    requires 0 < source && OnGrid(source, n, count, phase)
    requires count <= k < count + Steps(phase, Ticks(m), source)
    ensures phase + (k - count) * source < Ticks(m)
    ensures phase + (k - count) * source + Ticks(n) == k * source
  {
    StepBelow(phase, Ticks(m), source, k - count);
    assert (k - count) * source == k * source - count * source;
  }

  lemma FreshOutput(source: nat, phase: nat, last: seq<Sample>, capacity: nat, i: nat)
    requires 0 < source && (source == 16000 ==> phase == 0)
    requires i < |Process(source, 16000, phase, last, capacity).output|
    ensures Process(source, 16000, phase, last, capacity).output[i] == SampleAt(last, 16000, phase + i * source)
  {
    if source == 16000 {
      var x: int := last[i];
      TruncDivBetween(x * 16000, 16000, x, x);
      assert (phase + i * source) / 16000 == i && (phase + i * source) % 16000 == 0;
    }
  }

  /** Output `k`, at `position` of the stream, of two cuts that treat its neighbours alike. */
  lemma SameOutput(maxFrame: nat, source: nat, a: seq<seq<Sample>>, b: seq<seq<Sample>>, k: nat, position: nat)
    requires 0 < source && SizesFit(maxFrame, source)
    requires FramesFit(maxFrame, a) && FramesFit(maxFrame, b) && Flatten(a) == Flatten(b)
    requires position == k * source && SameNeighbours(a, b, position)
    requires k < |RunChunks(source, 16000, ResampleCapacity(maxFrame, source), a).output|
    requires k < |RunChunks(source, 16000, ResampleCapacity(maxFrame, source), b).output|
    ensures RunChunks(source, 16000, ResampleCapacity(maxFrame, source), a).output[k]
         == RunChunks(source, 16000, ResampleCapacity(maxFrame, source), b).output[k]
  {
    StreamSamples(maxFrame, source, a, k);
    StreamSamples(maxFrame, source, b, k);
    IdealIsUnique(a, b, position, RunChunks(source, 16000, ResampleCapacity(maxFrame, source), a).output[k],
                  RunChunks(source, 16000, ResampleCapacity(maxFrame, source), b).output[k]);
  }

  /** Two cuts of one stream give the same count and phase, and agree on every output not weighted across a cut. */
  lemma CutsAgree(maxFrame: nat, source: nat, a: seq<seq<Sample>>, b: seq<seq<Sample>>)
    requires 0 < source && SizesFit(maxFrame, source)
    requires FramesFit(maxFrame, a) && FramesFit(maxFrame, b)
    requires Flatten(a) == Flatten(b)
    ensures var ra := RunChunks(source, 16000, ResampleCapacity(maxFrame, source), a);
      var rb := RunChunks(source, 16000, ResampleCapacity(maxFrame, source), b);
      && |ra.output| == |rb.output| && ra.phase == rb.phase
      && forall k :: 0 <= k < |ra.output| && SameNeighbours(a, b, k * source) ==> ra.output[k] == rb.output[k]
  {
    StreamLength(maxFrame, source, a);
    StreamLength(maxFrame, source, b);
    var ra := RunChunks(source, 16000, ResampleCapacity(maxFrame, source), a);
    var rb := RunChunks(source, 16000, ResampleCapacity(maxFrame, source), b);
    forall k | 0 <= k < |ra.output| && SameNeighbours(a, b, k * source)
      ensures ra.output[k] == rb.output[k]
    {
      SameOutput(maxFrame, source, a, b, k, k * source);
    }
  }

  lemma UnweightedInterpolation(first: int, second: int)
    ensures Interpolate(first, second, 16000, 0) == first
  {
    TruncDivBetween(first * 16000, 16000, first, first);
  }

  lemma IdealIsUnique(a: seq<seq<Sample>>, b: seq<seq<Sample>>, position: nat, v: int, w: int)
    requires Flatten(a) == Flatten(b) && SameNeighbours(a, b, position)
    requires IsIdeal(a, position, v) && IsIdeal(b, position, w)
    ensures v == w
  {
    var l := position / 16000;
    if EndsChunk(a, l) != EndsChunk(b, l) {
      var stream := Flatten(a);
      UnweightedInterpolation(stream[l], RightOf(stream, l, true));
      UnweightedInterpolation(stream[l], RightOf(stream, l, false));
    }
  }

  /** Neither cut separates the two neighbours at `position`, both do, or the right one has no weight. */
  predicate SameNeighbours(a: seq<seq<Sample>>, b: seq<seq<Sample>>, position: nat) {
    EndsChunk(a, position / 16000) == EndsChunk(b, position / 16000) || position % 16000 == 0
  }

  // ------------------------------------------------------ where a cut is heard

  /** The same chunk lengths, with any samples. */
  ghost predicate SameCut(a: seq<seq<Sample>>, b: seq<seq<Sample>>) {
    |a| == |b| && forall i :: 0 <= i < |a| ==> |a[i]| == |b[i]|
  }

  lemma {:induction false} SameCutSameEnds(a: seq<seq<Sample>>, b: seq<seq<Sample>>, l: nat)
    requires SameCut(a, b)
    ensures |Flatten(a)| == |Flatten(b)| && EndsChunk(a, l) == EndsChunk(b, l)
    decreases |a|
  {
    if a != [] {
      SameCutSameEnds(a[..|a| - 1], b[..|b| - 1], l);
    }
  }

  const LOUD: Sample := 32000

  /** The cut filled with silence up to position `l` and a step after it. */
  function StepAfter(chunks: seq<seq<Sample>>, l: nat): seq<seq<Sample>> {
    if chunks == [] then []
    else
      var init, last := chunks[..|chunks| - 1], chunks[|chunks| - 1];
      StepAfter(init, l) +
      [seq<Sample>(|last|, i requires 0 <= i < |last| => if |Flatten(init)| + i <= l then 0 else LOUD)]
  }

  lemma {:induction false} StepAfterSteps(chunks: seq<seq<Sample>>, l: nat)
    ensures SameCut(chunks, StepAfter(chunks, l)) && |Flatten(StepAfter(chunks, l))| == |Flatten(chunks)|
    ensures forall j :: 0 <= j < |Flatten(chunks)| ==> Flatten(StepAfter(chunks, l))[j] == if j <= l then 0 else LOUD
  {
    if chunks != [] {
      var init := chunks[..|chunks| - 1];
      StepAfterSteps(init, l);
      var filled := StepAfter(chunks, l);
      assert filled[..|filled| - 1] == StepAfter(init, l);
    }
  }

  /** Output `k` exists in both runs and is the same. */
  ghost predicate AgreeAt(maxFrame: nat, source: nat, a: seq<seq<Sample>>, b: seq<seq<Sample>>, k: nat)
    requires 0 < source
  {
    var ra := RunChunks(source, 16000, ResampleCapacity(maxFrame, source), a).output;
    var rb := RunChunks(source, 16000, ResampleCapacity(maxFrame, source), b).output;
    k < |ra| && k < |rb| && ra[k] == rb[k]
  }

  /**
   * A step in the signal behind the left neighbour is heard where that neighbour does not end its chunk, and only
   * there.
   */
  lemma StepIsHeard(maxFrame: nat, source: nat, chunks: seq<seq<Sample>>, k: nat, l: nat, weight: nat)
    requires 0 < source && SizesFit(maxFrame, source) && FramesFit(maxFrame, chunks)
    requires k < CeilDiv(Ticks(|Flatten(chunks)|), source) && l == k * source / 16000 && weight == k * source % 16000
    ensures var output := RunChunks(source, 16000, ResampleCapacity(maxFrame, source), StepAfter(chunks, l)).output;
      k < |output| && output[k] == if EndsChunk(chunks, l) then 0 else weight * 2
  {
    var filled := StepAfter(chunks, l);
    StepAfterSteps(chunks, l);
    SameCutSameEnds(chunks, filled, l);
    SameFrames(maxFrame, chunks, filled);
    StreamLength(maxFrame, source, filled);
    StreamSamples(maxFrame, source, filled, k);
    if !EndsChunk(chunks, l) && l + 1 == |Flatten(chunks)| {
      EndOfStreamEndsChunk(chunks, l);
    }
    StepWeight(weight);
  }

  lemma StepWeight(weight: nat)
    requires weight < 16000
    ensures Interpolate(0, 0, 16000, weight) == 0 && Interpolate(0, 32000, 16000, weight) == weight * 2
  {
    assert 0 * (16000 - weight) + 32000 * weight == 16000 * (weight * 2);
  }

  /** Every pair of streams cut like `a` and `b` has the same output `k`. */
  ghost predicate AlwaysAgree(maxFrame: nat, source: nat, a: seq<seq<Sample>>, b: seq<seq<Sample>>, k: nat)
    requires 0 < source
  {
    forall c, d :: SameCut(a, c) && SameCut(b, d) && Flatten(c) == Flatten(d) ==> AgreeAt(maxFrame, source, c, d, k)
  }

  lemma SameFrames(maxFrame: nat, a: seq<seq<Sample>>, c: seq<seq<Sample>>)
    requires FramesFit(maxFrame, a) && SameCut(a, c)
    ensures FramesFit(maxFrame, c)
  {
  }

  /** Two streams of one content, cut like `a` and `b`. */
  lemma SameCutsAgree(maxFrame: nat, source: nat, a: seq<seq<Sample>>, b: seq<seq<Sample>>,
                      c: seq<seq<Sample>>, d: seq<seq<Sample>>, k: nat, l: nat)
    requires 0 < source && SizesFit(maxFrame, source)
    requires FramesFit(maxFrame, a) && FramesFit(maxFrame, b) && k < CeilDiv(Ticks(|Flatten(a)|), source)
    requires SameCut(a, c) && SameCut(b, d) && Flatten(c) == Flatten(d)
    requires l == k * source / 16000 && SameNeighbours(a, b, k * source)
    ensures AgreeAt(maxFrame, source, c, d, k)
  {
    SameCutSameEnds(a, c, l);
    SameCutSameEnds(b, d, l);
    SameFrames(maxFrame, a, c);
    SameFrames(maxFrame, b, d);
    assert SameNeighbours(c, d, k * source);
    StreamLength(maxFrame, source, c);
    CutsAgree(maxFrame, source, c, d);
  }

  lemma AgreeWhenSame(maxFrame: nat, source: nat, a: seq<seq<Sample>>, b: seq<seq<Sample>>, k: nat, l: nat)
    requires 0 < source && SizesFit(maxFrame, source)
    requires FramesFit(maxFrame, a) && FramesFit(maxFrame, b) && k < CeilDiv(Ticks(|Flatten(a)|), source)
    requires l == k * source / 16000 && SameNeighbours(a, b, k * source)
    ensures AlwaysAgree(maxFrame, source, a, b, k)
  {
    forall c, d | SameCut(a, c) && SameCut(b, d) && Flatten(c) == Flatten(d)
      ensures AgreeAt(maxFrame, source, c, d, k)
    {
      SameCutsAgree(maxFrame, source, a, b, c, d, k, l);
    }
  }

  /** Where one cut falls behind a weighed neighbour and the other does not, a step in the signal tells them apart. */
  lemma DifferWhenOne(maxFrame: nat, source: nat, a: seq<seq<Sample>>, b: seq<seq<Sample>>, k: nat, l: nat, weight: nat)
    requires 0 < source && SizesFit(maxFrame, source)
    requires FramesFit(maxFrame, a) && FramesFit(maxFrame, b) && |Flatten(a)| == |Flatten(b)|
    requires k < CeilDiv(Ticks(|Flatten(a)|), source) && l == k * source / 16000 && weight == k * source % 16000
    requires EndsChunk(a, l) != EndsChunk(b, l) && weight != 0
    ensures !AlwaysAgree(maxFrame, source, a, b, k)
  {
    var c, d := StepAfter(a, l), StepAfter(b, l);
    StepAfterSteps(a, l);
    StepAfterSteps(b, l);
    assert Flatten(c) == Flatten(d);
    StepIsHeard(maxFrame, source, a, k, l, weight);
    StepIsHeard(maxFrame, source, b, k, l, weight);
    assert SameCut(a, c) && SameCut(b, d) && !AgreeAt(maxFrame, source, c, d, k);
  }

  /**
   * Where chunking is heard: two ways to cut streams of one length give the same output `k` for every stream exactly
   * when both or neither cut fall behind its left neighbour, or its right neighbour has no weight.
   */
  lemma CutsDifferExactly(maxFrame: nat, source: nat, a: seq<seq<Sample>>, b: seq<seq<Sample>>, k: nat)
    requires 0 < source && SizesFit(maxFrame, source)
    requires FramesFit(maxFrame, a) && FramesFit(maxFrame, b) && |Flatten(a)| == |Flatten(b)|
    requires k < CeilDiv(Ticks(|Flatten(a)|), source)
    ensures SameNeighbours(a, b, k * source) <==> AlwaysAgree(maxFrame, source, a, b, k)
  {
    var l, weight := k * source / 16000, k * source % 16000;
    if SameNeighbours(a, b, k * source) {
      AgreeWhenSame(maxFrame, source, a, b, k, l);
    } else {
      DifferWhenOne(maxFrame, source, a, b, k, l, weight);
    }
  }
}
