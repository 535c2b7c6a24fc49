/** The ping-pong audio buffer between the microphone task and the inference
    task: the microphone task fills one buffer sample by sample and flips to
    the other when it is full; the classifier reads the buffer that is not
    being filled.

    Samples are inputs (the I2S driver is not modelled), and buffer allocation
    is an input outcome. Each push, record and read is an atomic step here,
    although the firmware shares this state between the two tasks without a
    lock; the statements about what the classifier reads hold under that
    atomicity. */
module Audio {
  import opened Types

  /** inference_t: the two buffers, the index of the buffer being filled, the
      flag that a buffer was completed and not yet consumed, the fill
      position, and the buffer length. */
  datatype Buffers = Buffers(bufs: seq<seq<i16>>, select: nat, ready: bool, count: nat, nSamples: nat)

  /** The shape the microphone task relies on: two buffers of nSamples
      entries, a 0/1 selector, and a fill position inside the buffer. */
  predicate Valid(a: Buffers)
  {
    && |a.bufs| == 2
    && a.nSamples > 0
    && |a.bufs[0]| == a.nSamples && |a.bufs[1]| == a.nSamples
    && a.select < 2
    && a.count < a.nSamples
  }

  /** buf_select ^= 1 on a 0/1 selector. */
  function Other(select: nat): nat
    requires select < 2
  {
    if select == 0 then 1 else 0
  }

  /** One iteration of the copy loop: store the sample at the fill position
      and, once the buffer is full, flip to the other buffer, restart at zero
      and mark a buffer ready. */
  function PushSample(a: Buffers, s: i16): (r: Buffers)
    requires Valid(a)
    ensures Valid(r) && r.nSamples == a.nSamples
    ensures a.count < |r.bufs[a.select]| && r.bufs[a.select][a.count] == s
    ensures r.bufs[a.select] == a.bufs[a.select][a.count := s]
    ensures r.bufs[Other(a.select)] == a.bufs[Other(a.select)]
    ensures a.count + 1 < a.nSamples ==> r.select == a.select && r.count == a.count + 1 && r.ready == a.ready
    ensures a.count + 1 == a.nSamples ==> r.select == Other(a.select) && r.count == 0 && r.ready
  {
    var block: seq<i16> := a.bufs[a.select][a.count := s];
    var filled := a.bufs[a.select := block];
    if a.count + 1 >= a.nSamples then
      a.(bufs := filled, select := Other(a.select), count := 0, ready := true)
    else
      a.(bufs := filled, count := a.count + 1)
  }

  /** A run of samples pushed one after the other. */
  function PushAll(a: Buffers, samples: seq<i16>): (r: Buffers)
    requires Valid(a)
    ensures Valid(r) && r.nSamples == a.nSamples
  {
    if |samples| == 0 then a else PushSample(PushAll(a, samples[..|samples| - 1]), samples[|samples| - 1])
  }

  /** The copy step of the microphone task: when recording is enabled, every
      sample read from the driver goes through the buffer logic in order;
      otherwise nothing changes. */
  method CopyChunk(a: Buffers, recordReady: bool, samples: seq<i16>) returns (r: Buffers)
    requires Valid(a)
    ensures Valid(r)
    ensures !recordReady ==> r == a
    ensures recordReady ==> r == PushAll(a, samples)
  {
    r := a;
    if recordReady {
      var i := 0;
      while i < |samples|
        invariant 0 <= i <= |samples|
        invariant Valid(r)
        invariant r == PushAll(a, samples[..i])
      {
        assert samples[..i + 1][..i] == samples[..i];
        r := PushSample(r, samples[i]);
        i := i + 1;
      }
      assert samples[..|samples|] == samples;
    }
  }

  /** The buffers against the history of samples pushed since start: the
      buffer being filled holds the newest samples at positions below the fill
      position, and once a whole block has been completed the other buffer
      holds the last completed block. */
  predicate Tracks(a: Buffers, hist: seq<i16>)
    requires Valid(a)
  {
    && a.count <= |hist|
    && a.bufs[a.select][..a.count] == hist[|hist| - a.count..]
    && (|hist| >= a.count + a.nSamples ==>
          a.bufs[Other(a.select)] == hist[|hist| - a.count - a.nSamples..|hist| - a.count])
  }

  lemma PushTracks(a: Buffers, hist: seq<i16>, s: i16)
    requires Valid(a) && Tracks(a, hist)
    ensures Tracks(PushSample(a, s), hist + [s])
  {
    var r := PushSample(a, s);
    var h := hist + [s];
    var w := r.bufs[a.select];
    assert w[..a.count] == a.bufs[a.select][..a.count];
    assert w[..a.count + 1] == h[|h| - a.count - 1..] by {
      forall i | 0 <= i < a.count + 1
        ensures w[i] == h[|h| - a.count - 1 + i]
      {
        if i < a.count {
          assert w[i] == a.bufs[a.select][..a.count][i] == hist[|hist| - a.count..][i];
        }
      }
    }
    if a.count + 1 == a.nSamples {
      assert w == w[..a.count + 1];
    } else if |h| >= r.count + r.nSamples {
      assert h[|h| - r.count - r.nSamples..|h| - r.count] == hist[|hist| - a.count - a.nSamples..|hist| - a.count];
    }
  }

  /** Tracking is kept over any run of samples. */
  lemma {:induction false} PushAllTracks(a: Buffers, hist: seq<i16>, samples: seq<i16>)
    requires Valid(a) && Tracks(a, hist)
    ensures Tracks(PushAll(a, samples), hist + samples)
  {
    if |samples| > 0 {
      var init, last := samples[..|samples| - 1], samples[|samples| - 1];
      PushAllTracks(a, hist, init);
      var b := PushAll(a, init);
      PushTracks(b, hist + init, last);
      assert PushAll(a, samples) == PushSample(b, last);
      assert hist + init + [samples[|samples| - 1]] == hist + samples;
    }
  }

  /** microphone_audio_signal_get_data: the classifier reads from the buffer
      that is not being filled. */
  function GetData(a: Buffers, offset: nat, length: nat): (out: seq<i16>)
    requires Valid(a) && offset + length <= a.nSamples
    ensures |out| == length
  {
    a.bufs[Other(a.select)][offset..offset + length]
  }

  /** A window of a slice is the shifted window of the whole sequence. */
  lemma SliceOfSlice(s: seq<i16>, lo: nat, hi: nat, i: nat, j: nat)
    requires lo <= hi <= |s| && i <= j <= hi - lo
    ensures s[lo..hi][i..j] == s[lo + i..lo + j]
  {
    assert forall k :: 0 <= k < j - i ==> s[lo..hi][i..j][k] == s[lo + i..lo + j][k];
  }

  /** Once a block has been completed, every window the classifier asks for
      is the same window of the last completed block of samples, never of the
      partly filled one. */
  lemma GetDataLastBlock(a: Buffers, hist: seq<i16>, offset: nat, length: nat)
    requires Valid(a) && Tracks(a, hist) && |hist| >= a.count + a.nSamples
    requires offset + length <= a.nSamples
    ensures var b := |hist| - a.count - a.nSamples;
            GetData(a, offset, length) == hist[b + offset..b + offset + length]
  {
    var b := |hist| - a.count - a.nSamples;
    var last := a.bufs[Other(a.select)];
    assert last == hist[b..|hist| - a.count];
    SliceOfSlice(hist, b, |hist| - a.count, offset, offset + length);
  }

  /** A sample that does not complete the buffer does not change what the
      classifier reads. */
  lemma GetDataStable(a: Buffers, s: i16, offset: nat, length: nat)
    requires Valid(a) && offset + length <= a.nSamples && a.count + 1 < a.nSamples
    ensures GetData(PushSample(a, s), offset, length) == GetData(a, offset, length)
  {
  }

  /** The result of microphone_inference_record and the buffers it leaves. */
  datatype Recorded = Recorded(ok: bool, after: Buffers)

  /** microphone_inference_record. It reports an overrun when a completed
      buffer was already waiting on entry; it then waits until a buffer is
      ready (the samples the microphone task pushes meanwhile are the input
      waited) and consumes the ready flag. */
  function Record(entry: Buffers, waited: seq<i16>): (r: Recorded)
    requires Valid(entry) && PushAll(entry, waited).ready
    ensures r.ok <==> !entry.ready
    ensures !r.after.ready
    ensures r.after.(ready := true) == PushAll(entry, waited)
  {
    Recorded(!entry.ready, PushAll(entry, waited).(ready := false))
  }

  /** A run of samples too short to reach the end of the buffer leaves the
      ready flag alone. */
  lemma {:induction false} ShortRunKeepsReady(a: Buffers, samples: seq<i16>)
    requires Valid(a) && a.count + |samples| < a.nSamples
    ensures PushAll(a, samples).ready == a.ready
    ensures PushAll(a, samples).count == a.count + |samples|
    ensures PushAll(a, samples).select == a.select
  {
    if |samples| > 0 {
      var init := samples[..|samples| - 1];
      ShortRunKeepsReady(a, init);
      var b := PushAll(a, init);
      assert PushAll(a, samples) == PushSample(b, samples[|samples| - 1]);
    }
  }

  /** A successful record waited for a whole new block: the microphone task
      pushed at least enough samples to finish the buffer it was filling. */
  lemma RecordSawFreshBlock(entry: Buffers, waited: seq<i16>)
    requires Valid(entry) && PushAll(entry, waited).ready
    ensures Record(entry, waited).ok ==> entry.count + |waited| >= entry.nSamples
  {
    if entry.count + |waited| < entry.nSamples {
      ShortRunKeepsReady(entry, waited);
    }
  }

  /** microphone_inference_start as written: after allocating buffer 1 it
      tests buffer 0 again, so a failed allocation of buffer 1 goes unnoticed. */
  function MicStartAsWritten(gotBuffer0: bool, gotBuffer1: bool, gotSampleBuffer: bool): (ok: bool)
  {
    if !gotBuffer0 then false
    else if !gotBuffer0 then false
    else if !gotSampleBuffer then false
    else true
  }

  /** The discrepancy: buffer 1 was not allocated, yet start-up reports
      success and enables recording, after which the first flip makes the
      microphone task write through a null buffer. */
  lemma MicStartAsWrittenIgnoresBuffer1()
    ensures MicStartAsWritten(true, false, true)
  {
  }

  /** microphone_inference_start with the second test on buffer 1: it
      succeeds exactly when all three allocations succeed, and then yields
      empty, valid buffers filling buffer 0. The initial contents are
      whatever the allocator returned. */
  function MicStart(n: nat, gotBuffer0: bool, gotBuffer1: bool, gotSampleBuffer: bool,
                    init0: seq<i16>, init1: seq<i16>): (r: Option<Buffers>)
    requires n > 0 && |init0| == n && |init1| == n
    ensures r.Some? <==> gotBuffer0 && gotBuffer1 && gotSampleBuffer
    ensures r.Some? ==> Valid(r.value) && Tracks(r.value, []) && !r.value.ready && r.value.select == 0
  {
    if !gotBuffer0 then None
    else if !gotBuffer1 then None
    else if !gotSampleBuffer then None
    else Some(Buffers([init0, init1], 0, false, 0, n))
  }

  /** After a successful start, whatever the microphone task pushes, the
      buffers keep tracking the samples. */
  lemma StartThenTrack(n: nat, init0: seq<i16>, init1: seq<i16>, samples: seq<i16>)
    requires n > 0 && |init0| == n && |init1| == n
    ensures var r := MicStart(n, true, true, true, init0, init1);
            r.Some? && Tracks(PushAll(r.value, samples), samples)
  {
    var a := MicStart(n, true, true, true, init0, init1).value;
    PushAllTracks(a, [], samples);
    assert [] + samples == samples;
  }
}
