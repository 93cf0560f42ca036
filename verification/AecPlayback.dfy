/** vt_aec_push_playback: the resampler feeding the reference ring (veetee_aec.c). */
module AecPlayback {
  import opened Arithmetic
  import opened AecResampler
  import R = AecReference

  datatype Status = Ok | Unavailable | InvalidArgument | NoMemory | AudioError

  class Aec {
    const resampler: Resampler
    const reference: R.Reference
    const buffer: array<Sample> // resample_buffer, resample_capacity long
    var ready: bool

    ghost predicate Valid()
      reads this, resampler, reference
    {
      && reference.Valid() && reference.storage != buffer
      && 0 < resampler.sourceRate && resampler.targetRate == 16000
    }

    constructor (resampler: Resampler, reference: R.Reference, buffer: array<Sample>)
      requires reference.Valid() && reference.storage != buffer
      requires 0 < resampler.sourceRate && resampler.targetRate == 16000
      ensures Valid() && this.resampler == resampler && this.reference == reference && this.buffer == buffer && ready
    {
      this.resampler, this.reference, this.buffer, ready := resampler, reference, buffer, true;
    }

    /** `locked` says whether the lock was obtained in time; without it, or when not ready, nothing changes. */
    method PushPlayback(samples: seq<Sample>, locked: bool) returns (status: Status)
      requires Valid()
      modifies resampler, reference, reference.storage, buffer
      ensures Valid() && resampler.sourceRate == old(resampler.sourceRate)
      ensures status == Unavailable <==> !ready
      ensures status == InvalidArgument <==> ready && samples == []
      ensures status == NoMemory <==> ready && samples != [] && !locked
      ensures status in {Unavailable, InvalidArgument, NoMemory} ==>
        resampler.phase == old(resampler.phase) && reference.Model() == old(reference.Model())
      ensures status in {Ok, AudioError} ==> (
        var call := Process(resampler.sourceRate, 16000, old(resampler.phase), samples, buffer.Length);
        && resampler.phase == call.phase
        && reference.Model() == R.Pushed(old(reference.Model()), call.output)
        && (status == AudioError <==> call.output == []))
    {
      if !ready {
        return Unavailable;
      }
      if |samples| == 0 {
        return InvalidArgument;
      }
      if !locked {
        return NoMemory;
      }
      ghost var call := Process(resampler.sourceRate, 16000, resampler.phase, samples, buffer.Length);
      var count := resampler.Run(samples, buffer, buffer.Length);
      assert buffer[..count] == call.output;
      var pushed := 0;
      if count != 0 {
        pushed := reference.Push(buffer[..count]);
      }
      status := if pushed == count && count > 0 then Ok else AudioError;
    }
  }

  // --------------------------------------------------------- sizing the ring (vt_aec_init)

  const MIN_REFERENCE_FRAMES := 4

  /** A product of size_t values. */
  function Times(a: nat, b: nat): nat {
    a * b % 0x1_0000_0000
  }

  /** Samples in so many milliseconds at 16 kHz. */
  function SamplesIn(ms: nat): nat {
    Times(ms, 16000) / 1000
  }

  /** What the ring keeps beyond the samples held back. */
  function Retained(bufferMs: nat, frame: nat): nat {
    Max(SamplesIn(bufferMs), Times(frame, 4))
  }

  /** bounded_reference_capacity. */
  function ReferenceCapacity(bufferMs: nat, delayMs: nat, frame: nat): nat {
    var retained, delay := Retained(bufferMs, frame), SamplesIn(delayMs);
    if retained <= SIZE_MAX - delay then retained + delay else 0
  }

  /** Below the wrap a product is itself, and above it is short by a multiple of 2^32. */
  lemma TimesWraps(a: nat, b: nat)
    ensures Times(a, b) <= SIZE_MAX && (Times(a, b) == a * b <==> a * b <= SIZE_MAX)
    ensures exists k :: a * b == Times(a, b) + k * 0x1_0000_0000
  {
    assert a * b == Times(a, b) + (a * b / 0x1_0000_0000) * 0x1_0000_0000;
  }

  lemma SamplesWithoutWrap(ms: nat)
    ensures SamplesIn(ms) == ms * 16 <==> ms * 16000 <= SIZE_MAX
  {
    if ms * 16000 > SIZE_MAX {
      assert SamplesIn(ms) <= 0xFFFF_FFFF / 1000;
    } else {
      assert Times(ms, 16000) == ms * 16 * 1000;
      DivUnique(ms * 16 * 1000, 1000, ms * 16, 0);
    }
  }

  /**
   * Without a wrap in the sizes, the ring that init builds can hold, beyond the samples held back, the requested
   * milliseconds and four detector frames; init gives up only when that does not fit a size_t.
   */
  lemma RingHoldsRequest(bufferMs: nat, delayMs: nat, frame: nat)
    requires bufferMs * 16000 <= SIZE_MAX && frame * 4 <= SIZE_MAX && delayMs <= 500 && 0 < frame
    ensures var capacity := ReferenceCapacity(bufferMs, delayMs, frame);
      && SamplesIn(delayMs) == delayMs * 16
      && (capacity == 0 <==> Max(bufferMs * 16, frame * 4) + delayMs * 16 > SIZE_MAX)
      && (capacity != 0 ==> capacity == delayMs * 16 + Max(bufferMs * 16, frame * 4))
  {
    SamplesWithoutWrap(bufferMs);
    SamplesWithoutWrap(delayMs);
  }

  /** The reference part of vt_aec_init: past its own guard the ring is never refused. */
  method InitReference(bufferMs: nat, delayMs: nat, frame: nat) returns (reference: R.Reference?)
    requires 0 < bufferMs && delayMs <= 500 && 0 < frame
    ensures reference == null <==>
      Retained(bufferMs, frame) == 0 || Retained(bufferMs, frame) + SamplesIn(delayMs) > SIZE_MAX
    ensures reference != null ==> fresh(reference) && reference.Valid()
    ensures reference != null ==>
      reference.Model() == R.Ring([], ReferenceCapacity(bufferMs, delayMs, frame), SamplesIn(delayMs),
                                  R.Stats(0, 0, 0, 0, 0, 0, 0, 0))
  {
    var retained := Max(SamplesIn(bufferMs), Times(frame, MIN_REFERENCE_FRAMES));
    var delay := SamplesIn(delayMs);
    var capacity := if retained <= SIZE_MAX - delay then retained + delay else 0;
    if capacity == 0 || delay >= capacity {
      return null;
    }
    var ring := new Sample[capacity](_ => 0);
    reference := R.Reference.Init(ring, delay);
  }

  // ------------------------------------------------------------------- what a push reports

  /** The call after `chunks` reports success exactly when the stream reaches a new output position. */
  lemma ReportsOkIffOutputDue(maxFrame: nat, source: nat, chunks: seq<seq<Sample>>, next: seq<Sample>)
    requires 0 < source && SizesFit(maxFrame, source) && FramesFit(maxFrame, chunks) && |next| <= maxFrame
    ensures var capacity := ResampleCapacity(maxFrame, source);
      var phase := RunChunks(source, 16000, capacity, chunks).phase;
      var n := |Flatten(chunks)|;
      Process(source, 16000, phase, next, capacity).output != [] <==>
        CeilDiv(Ticks(n + |next|), source) > CeilDiv(Ticks(n), source)
  {
    var capacity := ResampleCapacity(maxFrame, source);
    var before := RunChunks(source, 16000, capacity, chunks);
    StreamLength(maxFrame, source, chunks);
    SizedCallIsComplete(maxFrame, source, before.phase, next);
    CallLength(source, Ticks(|Flatten(chunks)|), Ticks(|next|), before.phase, |before.output|);
  }

  /** At 24 kHz a third one-sample chunk is reported as an audio error although nothing was lost. */
  lemma ShortChunkReportsError(a: Sample, b: Sample, c: Sample)
    ensures var capacity := ResampleCapacity(1, 24000);
      var before := RunChunks(24000, 16000, capacity, [[a], [b]]);
      && SizesFit(1, 24000)
      && before.output == [a, b]
      && Process(24000, 16000, before.phase, [c], capacity) == Resampled([], 0)
  {
    var capacity := ResampleCapacity(1, 24000);
    var empty: seq<seq<Sample>> := [];
    var one, two := [[a]], [[a], [b]];
    assert one[..0] == empty && two[..1] == one;
    assert Flatten(empty) == [] && Flatten(one) == [a] && Flatten(two) == [a, b];
    assert Ticks(2) == 32000 && CeilDiv(32000, 24000) == 2;
    StreamLength(1, 24000, two);
    FirstTwo(a, b, two);
  }

  lemma FirstTwo(a: Sample, b: Sample, chunks: seq<seq<Sample>>)
    requires chunks == [[a], [b]] && Flatten(chunks) == [a, b]
    requires Flatten(chunks[..1]) == [a]
    requires |RunChunks(24000, 16000, ResampleCapacity(1, 24000), chunks).output| == 2
    ensures RunChunks(24000, 16000, ResampleCapacity(1, 24000), chunks).output == [a, b]
  {
    StreamSamples(1, 24000, chunks, 0);
    StreamSamples(1, 24000, chunks, 1);
    assert EndsChunk(chunks, 1);
    UnweightedInterpolation(a, RightOf([a, b], 0, EndsChunk(chunks, 0)));
    InterpolateBetween(b, b, 16000, 8000);
  }
}
