/** The wake-word re-chunker: arbitrary feeds cut into fixed detector blocks (veetee_wake.c). */
module WakeFeed {
  import opened Wrappers

  type Sample = x: int | -32768 <= x <= 32767
  type Block = seq<Sample>

  /** The detector: its verdict on a block may depend on every block it has seen since it was created. */
  type Detector = seq<Block> -> int

  const MIN_BUFFER_SAMPLES := 512

  // ------------------------------------------------------ the detector's own view

  /** What scanning `data` in blocks of `chunk` leaves: blocks shown so far, unread tail, first hit. */
  datatype Scan = Scan(seen: seq<Block>, rest: seq<Sample>, hit: Option<int>)

  predicate IsHit(verdict: int, words: nat) {
    0 < verdict <= words
  }

  function ScanFrom(detect: Detector, chunk: nat, words: nat, seen: seq<Block>, data: seq<Sample>): Scan
    requires chunk > 0
    decreases |data|
  {
    if |data| < chunk then Scan(seen, data, None)
    else
      var shown := seen + [data[..chunk]];
      var verdict := detect(shown);
      if IsHit(verdict, words) then Scan(shown, [], Some(verdict))
      else ScanFrom(detect, chunk, words, shown, data[chunk..])
  }

  /** Scanning in two parts is scanning at once, unless the first part already hit. */
  lemma {:induction false} ScanSplits(detect: Detector, chunk: nat, words: nat, seen: seq<Block>, a: seq<Sample>,
                                      b: seq<Sample>)
    requires chunk > 0
    ensures var first := ScanFrom(detect, chunk, words, seen, a);
      ScanFrom(detect, chunk, words, seen, a + b) ==
        if first.hit.Some? then first else ScanFrom(detect, chunk, words, first.seen, first.rest + b)
    decreases |a|
  {
    if |a| >= chunk {
      assert (a + b)[..chunk] == a[..chunk];
      assert (a + b)[chunk..] == a[chunk..] + b;
      var shown := seen + [a[..chunk]];
      if !IsHit(detect(shown), words) {
        ScanSplits(detect, chunk, words, shown, a[chunk..], b);
      }
    }
  }

  lemma {:induction false} ScanRest(detect: Detector, chunk: nat, words: nat, seen: seq<Block>, data: seq<Sample>)
    requires chunk > 0
    ensures |ScanFrom(detect, chunk, words, seen, data).rest| < chunk
    decreases |data|
  {
    if |data| >= chunk {
      var shown := seen + [data[..chunk]];
      if !IsHit(detect(shown), words) {
        ScanRest(detect, chunk, words, shown, data[chunk..]);
      }
    }
  }

  /** The stream cut into consecutive blocks. */
  function Blocks(data: seq<Sample>, chunk: nat): seq<Block>
    requires chunk > 0
    decreases |data|
  {
    if |data| < chunk then [] else [data[..chunk]] + Blocks(data[chunk..], chunk)
  }

  /**
   * The blocks shown are exactly the stream's consecutive blocks, up to the first hit; the tail is what is left
   * over.
   */
  lemma {:induction false} ScanShowsBlocks(detect: Detector, chunk: nat, words: nat, seen: seq<Block>,
                                           data: seq<Sample>)
    requires chunk > 0
    ensures |Blocks(data, chunk)| * chunk <= |data|
    ensures var r := ScanFrom(detect, chunk, words, seen, data);
      && r.seen <= seen + Blocks(data, chunk) && seen <= r.seen
      && (r.hit == None ==> r.seen == seen + Blocks(data, chunk) && r.rest == data[|Blocks(data, chunk)| * chunk..])
      && (r.hit.Some? ==> |r.seen| > |seen| && detect(r.seen) == r.hit.value && IsHit(r.hit.value, words))
      && (forall k :: |seen| < k < |r.seen| ==> !IsHit(detect(r.seen[..k]), words))
    decreases |data|
  {
    if |data| >= chunk {
      var shown := seen + [data[..chunk]];
      var more := Blocks(data[chunk..], chunk);
      ScanShowsBlocks(detect, chunk, words, shown, data[chunk..]);
      assert seen + ([data[..chunk]] + more) == shown + more;
      assert (1 + |more|) * chunk == chunk + |more| * chunk;
      assert data[chunk..][|more| * chunk..] == data[(1 + |more|) * chunk..];
      var r := ScanFrom(detect, chunk, words, seen, data);
      forall k | |seen| < k < |r.seen|
        ensures !IsHit(detect(r.seen[..k]), words)
      {
        if k == |shown| {
          assert r.seen[..k] == shown;
        }
      }
    }
  }

  /** A scan stops at the first block on which the detector names one of its words, numbered from one. */
  lemma StopsAtFirstWord(detect: Detector, chunk: nat, words: nat, seen: seq<Block>, data: seq<Sample>)
    requires chunk > 0
    ensures var r := ScanFrom(detect, chunk, words, seen, data);
      && (r.hit.Some? ==> r.hit == Some(detect(r.seen)) && 1 <= detect(r.seen) <= words)
      && (forall k :: |seen| < k < |r.seen| || (k == |r.seen| > |seen| && r.hit == None) ==>
            detect(r.seen[..k]) < 1 || detect(r.seen[..k]) > words)
  {
    var r := ScanFrom(detect, chunk, words, seen, data);
    ScanShowsBlocks(detect, chunk, words, seen, data);
    LastShownHits(detect, chunk, words, seen, data);
    assert r.seen[..|r.seen|] == r.seen;
  }

  lemma {:induction false} LastShownHits(detect: Detector, chunk: nat, words: nat, seen: seq<Block>, data: seq<Sample>)
    requires chunk > 0
    ensures var r := ScanFrom(detect, chunk, words, seen, data);
      |r.seen| > |seen| && r.hit == None ==> !IsHit(detect(r.seen), words)
    decreases |data|
  {
    if |data| >= chunk {
      var shown := seen + [data[..chunk]];
      LastShownHits(detect, chunk, words, shown, data[chunk..]);
      ScanShowsBlocks(detect, chunk, words, shown, data[chunk..]);
      var r := ScanFrom(detect, chunk, words, shown, data[chunk..]);
      assert r.seen[..|shown|] == shown;
    }
  }

  // ---------------------------------------------------------------- one feed call

  datatype Status = Ok | InvalidArgument | AudioError | ModelError | Unavailable

  datatype Wake = Wake(
    ready: bool, armed: bool, tail: seq<Sample>, seen: seq<Block>, capacity: nat, chunk: nat, words: nat)

  datatype Fed = Fed(wake: Wake, status: Status, event: Option<int>)

  function Feed(detect: Detector, w: Wake, samples: seq<Sample>): Fed
    requires w.chunk > 0
  {
    if samples == [] then Fed(w, InvalidArgument, None)
    else if !w.ready || !w.armed then Fed(w, Ok, None)
    else if |samples| > w.capacity then Fed(w, AudioError, None)
    else
      var r := ScanFrom(detect, w.chunk, w.words, w.seen, w.tail + samples);
      Fed(w.(seen := r.seen, tail := r.rest, armed := r.hit == None), Ok, r.hit)
  }

  /** The capacity choice of vt_wake_init. */
  function InitialCapacity(requested: nat, chunk: nat): (capacity: nat)
    ensures capacity >= chunk + 512 && capacity >= requested
    ensures capacity == chunk + 512 || capacity == requested
  {
    if requested < chunk + MIN_BUFFER_SAMPLES then chunk + MIN_BUFFER_SAMPLES else requested
  }

  /** What a freshly created model reports. */
  datatype ModelInfo = ModelInfo(rate: int, chunk: int, words: int)

  class WakeWord {
    const detect: Detector
    var buffer: array<Sample>
    var inputCapacity: nat
    var inputSize: nat
    var chunkSamples: nat
    var wordCount: nat
    var ready: bool
    var armed: bool
    var seen: seq<Block>

    ghost predicate Valid()
      reads this
    {
      buffer.Length == inputCapacity && 0 < chunkSamples <= inputCapacity && inputSize < chunkSamples
    }

    ghost function Model(): Wake
      requires Valid()
      reads this, buffer
    {
      Wake(ready, armed, buffer[..inputSize], seen, inputCapacity, chunkSamples, wordCount)
    }

    constructor (detect: Detector, requested: nat, info: ModelInfo)
      requires info.chunk > 0 && info.words > 0
      ensures Valid() && fresh(buffer) && this.detect == detect
      ensures Model() == Wake(true, true, [], [], InitialCapacity(requested, info.chunk), info.chunk, info.words)
    {
      this.detect := detect;
      inputCapacity := InitialCapacity(requested, info.chunk);
      buffer := new Sample[InitialCapacity(requested, info.chunk)];
      inputSize, chunkSamples, wordCount := 0, info.chunk, info.words;
      ready, armed, seen := true, true, [];
    }

    method FeedSamples(samples: seq<Sample>) returns (status: Status, event: Option<int>)
      requires Valid()
      modifies this, buffer
      ensures Valid() && buffer == old(buffer)
      ensures Fed(Model(), status, event) == Feed(detect, old(Model()), samples)
    {
      event := None;
      if |samples| == 0 {
        return InvalidArgument, None;
      }
      if !ready || !armed {
        return Ok, None;
      }
      if |samples| > inputCapacity {
        return AudioError, None;
      }
      ghost var total := ScanFrom(detect, chunkSamples, wordCount, seen, buffer[..inputSize] + samples);
      assert samples[0..] == samples;
      var offset := 0;
      while offset < |samples|
        invariant offset <= |samples| && Valid() && ready && armed && buffer == old(buffer)
        invariant inputCapacity == old(inputCapacity) && chunkSamples == old(chunkSamples)
          && wordCount == old(wordCount)
        invariant ScanFrom(detect, chunkSamples, wordCount, seen, buffer[..inputSize] + samples[offset..]) == total
        decreases |samples| - offset
      {
        var available := inputCapacity - inputSize;
        var copyCount := |samples| - offset;
        if copyCount > available {
          copyCount := available;
        }
        CopyIn(samples, offset, copyCount);
        offset := offset + copyCount;
        event := Drain(samples, offset);
        if event.Some? {
          return Ok, event;
        }
      }
      assert buffer[..inputSize] + samples[offset..] == buffer[..inputSize];
      return Ok, None;
    }

    /** The memcpy of one stretch of samples behind what is already buffered. */
    method CopyIn(samples: seq<Sample>, offset: nat, count: nat)
      requires Valid() && offset + count <= |samples| && inputSize + count <= inputCapacity
      modifies this`inputSize, buffer
      ensures inputSize == old(inputSize) + count
      ensures buffer[..inputSize] + samples[offset + count..] == old(buffer[..inputSize]) + samples[offset..]
    {
      forall i | 0 <= i < count { buffer[inputSize + i] := samples[offset + i]; }
      inputSize := inputSize + count;
      assert buffer[..inputSize] == old(buffer[..inputSize]) + samples[offset..offset + count];
    }

    /** The detector loop: every complete block is shown, then shifted out. */
    method Drain(ghost samples: seq<Sample>, ghost offset: nat) returns (event: Option<int>)
      requires buffer.Length == inputCapacity && 0 < chunkSamples <= inputCapacity && inputSize <= inputCapacity
      requires ready && armed && offset <= |samples|
      modifies this`inputSize, this`seen, this`armed, buffer
      ensures Valid()
      ensures
        var total := old(ScanFrom(detect, chunkSamples, wordCount, seen, buffer[..inputSize] + samples[offset..]));
        if event.Some? then total == Scan(seen, [], event) && inputSize == 0 && !armed
        else armed && total == ScanFrom(detect, chunkSamples, wordCount, seen, buffer[..inputSize] + samples[offset..])
    {
      ghost var total := ScanFrom(detect, chunkSamples, wordCount, seen, buffer[..inputSize] + samples[offset..]);
      while inputSize >= chunkSamples
        invariant inputSize <= inputCapacity && armed
        invariant ScanFrom(detect, chunkSamples, wordCount, seen, buffer[..inputSize] + samples[offset..]) == total
        decreases inputSize
      {
        ghost var data := buffer[..inputSize] + samples[offset..];
        assert data[..chunkSamples] == buffer[..chunkSamples];
        assert data[chunkSamples..] == buffer[chunkSamples..inputSize] + samples[offset..];
        seen := seen + [buffer[..chunkSamples]];
        var result := detect(seen);
        ShiftOut();
        if 0 < result <= wordCount {
          armed := false;
          inputSize := 0;
          return Some(result);
        }
      }
      return None;
    }

    /** The memmove of what follows the block to the front. */
    method ShiftOut()
      requires buffer.Length == inputCapacity && chunkSamples <= inputSize <= inputCapacity
      modifies this`inputSize, buffer
      ensures inputSize == old(inputSize) - chunkSamples
      ensures buffer[..inputSize] == old(buffer[chunkSamples..inputSize])
    {
      var remaining := inputSize - chunkSamples;
      forall i | 0 <= i < remaining { buffer[i] := buffer[chunkSamples + i]; }
      inputSize := remaining;
    }

    /** vt_wake_arm: the model is recreated; `model` is what the new instance reports, None if it could not be made. */
    method Arm(model: Option<ModelInfo>) returns (status: Status)
      requires Valid()
      modifies this
      ensures Valid() && buffer == old(buffer) && inputCapacity == old(inputCapacity)
      ensures !old(ready) ==> status == Unavailable && Model() == old(Model())
      ensures old(ready) && model == None ==> status == ModelError && !ready && !armed
      ensures old(ready) && model.Some? ==>
        var info := model.value;
        var good := info.rate == 16000 && 0 < info.chunk <= inputCapacity && info.words > 0;
        && status == (if good then Ok else AudioError) && ready == good && armed == good
        && (good ==> Model() == Wake(true, true, [], [], inputCapacity, info.chunk, info.words))
    {
      if !ready {
        return Unavailable;
      }
      armed := false;
      if model == None {
        ready := false;
        return ModelError;
      }
      var info := model.value;
      if info.rate != 16000 || info.chunk <= 0 || info.words <= 0 || info.chunk > inputCapacity {
        ready := false;
        return AudioError;
      }
      seen := [];
      chunkSamples, wordCount, inputSize, armed := info.chunk, info.words, 0, true;
      return Ok;
    }
  }

  // ---------------------------------------------------------------- whole streams

  function Concat(feeds: seq<seq<Sample>>): seq<Sample> {
    if feeds == [] then [] else Concat(feeds[..|feeds| - 1]) + feeds[|feeds| - 1]
  }

  function FeedAll(detect: Detector, w: Wake, feeds: seq<seq<Sample>>): (r: Fed)
    requires w.chunk > 0
    ensures r.wake.chunk == w.chunk
  {
    if feeds == [] then Fed(w, Ok, None)
    else
      var before := FeedAll(detect, w, feeds[..|feeds| - 1]);
      var last := Feed(detect, before.wake, feeds[|feeds| - 1]);
      Fed(last.wake, last.status, if before.event.Some? then before.event else last.event)
  }

  predicate FeedsFit(w: Wake, feeds: seq<seq<Sample>>) {
    forall i :: 0 <= i < |feeds| ==> 0 < |feeds[i]| <= w.capacity
  }

  /** However a stream is cut into feeds, the run from arming equals one scan of the concatenation. */
  lemma {:induction false} FeedsScanTheStream(detect: Detector, w: Wake, feeds: seq<seq<Sample>>)
    requires w.chunk > 0 && w.ready && w.armed && |w.tail| < w.chunk && FeedsFit(w, feeds)
    ensures var r := FeedAll(detect, w, feeds);
      var scan := ScanFrom(detect, w.chunk, w.words, w.seen, w.tail + Concat(feeds));
      && r.status == Ok && r.event == scan.hit
      && r.wake == w.(seen := scan.seen, tail := scan.rest, armed := scan.hit == None)
  {
    if feeds == [] {
      assert w.tail + Concat(feeds) == w.tail;
    } else {
      var init, last := feeds[..|feeds| - 1], feeds[|feeds| - 1];
      FeedsScanTheStream(detect, w, init);
      ScanSplits(detect, w.chunk, w.words, w.seen, w.tail + Concat(init), last);
      assert w.tail + Concat(feeds) == w.tail + Concat(init) + last;
    }
  }

  /** Two cuts of one stream show the detector the same blocks and report the same first hit. */
  lemma SplitsAgree(detect: Detector, w: Wake, a: seq<seq<Sample>>, b: seq<seq<Sample>>)
    requires w.chunk > 0 && w.ready && w.armed && w.tail == [] && FeedsFit(w, a) && FeedsFit(w, b)
    requires Concat(a) == Concat(b)
    ensures FeedAll(detect, w, a) == FeedAll(detect, w, b)
    ensures var r := FeedAll(detect, w, a);
      && r.wake.seen <= w.seen + Blocks(Concat(a), w.chunk)
      && (r.event == None ==> r.wake.seen == w.seen + Blocks(Concat(a), w.chunk))
      && |r.wake.tail| < w.chunk
  {
    FeedsScanTheStream(detect, w, a);
    FeedsScanTheStream(detect, w, b);
    assert w.tail + Concat(a) == Concat(a);
    ScanShowsBlocks(detect, w.chunk, w.words, w.seen, Concat(a));
    ScanRest(detect, w.chunk, w.words, w.seen, Concat(a));
  }
}
