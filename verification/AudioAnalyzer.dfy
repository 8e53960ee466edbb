/**
  The streaming audio analyzer: PCM arrives in buffers of any size and is cut into overlapping
  windows of 2048 samples, one every 512.  The spectrum of a window is a parameter of the model;
  samples are reals.
*/
module AudioAnalyzer {
  import opened Prelude

  const FFT_N: nat := 2048
  const HOP: nat := 512
  const WAVE_PTS: nat := 128
  const SAMPLE_RATE: nat := 44100

  datatype Frame = Frame(timeMs: nat, spec: seq<real>, wave: seq<real>)

  /** The mutable fields: samples not yet dropped, samples dropped, frames built. */
  datatype State = State(pcm: seq<real>, samplesIn: nat, frames: seq<Frame>)

  const CLEARED := State([], 0, [])

  function Clamp(x: real): real { if x < -1.0 then -1.0 else if x > 1.0 then 1.0 else x }

  function Sum(s: seq<real>): real {
    if s == [] then 0.0 else Sum(s[..|s| - 1]) + s[|s| - 1]
  }

  /** One waveform point: the clamped mean of its sixteen samples. */
  function WavePoint(window: seq<real>, i: nat): real
    requires |window| >= FFT_N && i < WAVE_PTS
  {
    Clamp(Sum(window[i * 16..i * 16 + 16]) / 16.0)
  }

  function Wave(window: seq<real>): seq<real>
    requires |window| >= FFT_N
  {
    seq(WAVE_PTS, i requires 0 <= i < WAVE_PTS => WavePoint(window, i))
  }

  /** The frame of a window that starts `start` samples into the stream. */
  function BuildFrame(spectrum: seq<real> -> seq<real>, start: nat, window: seq<real>): Frame
    requires |window| == FFT_N
  {
    Frame(start * 1000 / SAMPLE_RATE, spectrum(window), Wave(window))
  }

  // ---------------------------------------------------------------- streaming

  /** The loop of processBuffer. */
  function Drain(spectrum: seq<real> -> seq<real>, s: State): State
    decreases |s.pcm|
  {
    if |s.pcm| >= FFT_N then
      Drain(spectrum, State(s.pcm[HOP..], s.samplesIn + HOP,
                            s.frames + [BuildFrame(spectrum, s.samplesIn, s.pcm[..FFT_N])]))
    else s
  }

  function Feed(spectrum: seq<real> -> seq<real>, s: State, buf: seq<real>): State {
    Drain(spectrum, s.(pcm := s.pcm + buf))
  }

  function FeedAll(spectrum: seq<real> -> seq<real>, bufs: seq<seq<real>>): State {
    if bufs == [] then CLEARED
    else Feed(spectrum, FeedAll(spectrum, bufs[..|bufs| - 1]), bufs[|bufs| - 1])
  }

  function Concat(bufs: seq<seq<real>>): seq<real> {
    if bufs == [] then [] else Concat(bufs[..|bufs| - 1]) + bufs[|bufs| - 1]
  }

  // ---------------------------------------------------------------- the whole stream at once

  /** How many windows fit `n` samples. */
  function Count(n: nat): nat { if n < FFT_N then 0 else (n - FFT_N) / HOP + 1 }

  function FrameAt(spectrum: seq<real> -> seq<real>, total: seq<real>, k: nat): Frame
    requires HOP * k + FFT_N <= |total|
  {
    BuildFrame(spectrum, HOP * k, total[HOP * k..HOP * k + FFT_N])
  }

  ghost predicate FramesOf(spectrum: seq<real> -> seq<real>, total: seq<real>, frames: seq<Frame>) {
    forall k :: 0 <= k < |frames| ==>
      HOP * k + FFT_N <= |total| && frames[k] == FrameAt(spectrum, total, k)
  }

  /** The state has seen exactly `total`, whatever buffers it came in. */
  ghost predicate Seen(spectrum: seq<real> -> seq<real>, total: seq<real>, s: State) {
    && s.samplesIn == HOP * |s.frames| <= |total|
    && s.pcm == total[s.samplesIn..]
    && FramesOf(spectrum, total, s.frames)
  }

  lemma {:induction false} DrainSeen(spectrum: seq<real> -> seq<real>, total: seq<real>, s: State)
    requires Seen(spectrum, total, s)
    ensures Seen(spectrum, total, Drain(spectrum, s)) && |Drain(spectrum, s).pcm| < FFT_N
    decreases |s.pcm|
  {
    if |s.pcm| >= FFT_N {
      var k := |s.frames|;
      var next := State(s.pcm[HOP..], s.samplesIn + HOP,
                        s.frames + [BuildFrame(spectrum, s.samplesIn, s.pcm[..FFT_N])]);
      assert s.pcm[..FFT_N] == total[HOP * k..HOP * k + FFT_N];
      assert next.pcm == total[next.samplesIn..];
      DrainSeen(spectrum, total, next);
    }
  }

  lemma MoreSeen(spectrum: seq<real> -> seq<real>, total: seq<real>, buf: seq<real>, s: State)
    requires Seen(spectrum, total, s)
    ensures Seen(spectrum, total + buf, s.(pcm := s.pcm + buf))
  {
    var more := total + buf;
    assert more[s.samplesIn..] == s.pcm + buf;
    forall k | 0 <= k < |s.frames|
      ensures HOP * k + FFT_N <= |more| && s.frames[k] == FrameAt(spectrum, more, k)
    {
      assert more[HOP * k..HOP * k + FFT_N] == total[HOP * k..HOP * k + FFT_N];
    }
  }

  lemma {:induction false} AllSeen(spectrum: seq<real> -> seq<real>, bufs: seq<seq<real>>)
    ensures Seen(spectrum, Concat(bufs), FeedAll(spectrum, bufs))
    ensures |FeedAll(spectrum, bufs).pcm| < FFT_N
  {
    if bufs != [] {
      var front, last := bufs[..|bufs| - 1], bufs[|bufs| - 1];
      AllSeen(spectrum, front);
      var s := FeedAll(spectrum, front);
      MoreSeen(spectrum, Concat(front), last, s);
      DrainSeen(spectrum, Concat(bufs), s.(pcm := s.pcm + last));
    }
  }

  /** A drained state has as many frames as windows fit. */
  lemma SeenCount(spectrum: seq<real> -> seq<real>, total: seq<real>, s: State)
    requires Seen(spectrum, total, s) && |s.pcm| < FFT_N
    ensures |s.frames| == Count(|total|)
  {
    var n := |s.frames|;
    assert |total| == HOP * n + |s.pcm|;
    if n > 0 {
      assert s.frames[n - 1] == FrameAt(spectrum, total, n - 1);
      assert |total| - FFT_N == HOP * (n - 1) + (|total| - FFT_N - HOP * (n - 1));
    }
  }

  ghost predicate StrictlyLater(frames: seq<Frame>) {
    forall i, j :: 0 <= i < j < |frames| ==> frames[i].timeMs < frames[j].timeMs
  }

  lemma TimesIncrease(i: nat, j: nat)
    requires i < j
    ensures HOP * i * 1000 / SAMPLE_RATE < HOP * j * 1000 / SAMPLE_RATE
  {
    assert HOP * j * 1000 >= HOP * i * 1000 + SAMPLE_RATE;
  }

  lemma SeenTimes(spectrum: seq<real> -> seq<real>, total: seq<real>, s: State)
    requires Seen(spectrum, total, s)
    ensures StrictlyLater(s.frames)
  {
    forall i, j | 0 <= i < j < |s.frames| ensures s.frames[i].timeMs < s.frames[j].timeMs {
      TimesIncrease(i, j);
      assert s.frames[i] == FrameAt(spectrum, total, i) && s.frames[j] == FrameAt(spectrum, total, j);
    }
  }

  /**
    Streaming equals batch: however the stream is split into buffers, frame k is built from
    exactly the samples 512k .. 512k + 2047, there are as many frames as windows fit, and fewer
    than 2048 samples are left over; the frames' times strictly increase.
  */
  lemma StreamingEqualsBatch(spectrum: seq<real> -> seq<real>, bufs: seq<seq<real>>)
    ensures var total, s := Concat(bufs), FeedAll(spectrum, bufs);
            && |s.frames| == Count(|total|)
            && FramesOf(spectrum, total, s.frames)
            && s.pcm == total[HOP * |s.frames|..] && |s.pcm| < FFT_N
            && StrictlyLater(s.frames)
  {
    AllSeen(spectrum, bufs);
    SeenTimes(spectrum, Concat(bufs), FeedAll(spectrum, bufs));
    SeenCount(spectrum, Concat(bufs), FeedAll(spectrum, bufs));
  }

  /** Two ways of splitting the same stream leave the analyzer in the same state. */
  lemma SplitDoesNotMatter(spectrum: seq<real> -> seq<real>, bufs: seq<seq<real>>, cuts: seq<seq<real>>)
    requires Concat(bufs) == Concat(cuts)
    ensures FeedAll(spectrum, bufs) == FeedAll(spectrum, cuts)
  {
    AllSeen(spectrum, bufs);
    AllSeen(spectrum, cuts);
    StreamingEqualsBatch(spectrum, bufs);
    StreamingEqualsBatch(spectrum, cuts);
    var a, b := FeedAll(spectrum, bufs).frames, FeedAll(spectrum, cuts).frames;
    forall k | 0 <= k < |a| ensures a[k] == b[k] {
      assert a[k] == FrameAt(spectrum, Concat(bufs), k);
    }
    assert a == b;
  }

  // ---------------------------------------------------------------- what a frame holds

  lemma SumOfOneMore(s: seq<real>, k: nat)
    requires k < |s|
    ensures Sum(s[..k + 1]) == Sum(s[..k]) + s[k]
  {
    assert s[..k + 1][..k] == s[..k];
  }

  lemma SumOfSixteen(s: seq<real>)
    requires |s| == 16
    ensures Sum(s) == s[0] + s[1] + s[2] + s[3] + s[4] + s[5] + s[6] + s[7]
                      + s[8] + s[9] + s[10] + s[11] + s[12] + s[13] + s[14] + s[15]
  {
    assert Sum(s[..0]) == 0.0;
    hide Sum;
    forall k: nat | k < 16 ensures Sum(s[..k + 1]) == Sum(s[..k]) + s[k] { SumOfOneMore(s, k); }
    assert s[..16] == s;
  }

  /** The mean of sixteen samples from `at` on, cut to the range from -1 to 1. */
  ghost predicate IsCutMean(total: seq<real>, at: nat, point: real) {
    && at + 16 <= |total|
    && var mean := (total[at] + total[at + 1] + total[at + 2] + total[at + 3]
                    + total[at + 4] + total[at + 5] + total[at + 6] + total[at + 7]
                    + total[at + 8] + total[at + 9] + total[at + 10] + total[at + 11]
                    + total[at + 12] + total[at + 13] + total[at + 14] + total[at + 15]) / 16.0;
       point == if mean > 1.0 then 1.0 else if mean < -1.0 then -1.0 else mean
  }

  lemma WavePointIs(total: seq<real>, from: nat, i: nat)
    requires from + 2048 <= |total| && i < 128
    ensures IsCutMean(total, from + 16 * i, WavePoint(total[from..from + 2048], i))
  {
    var window := total[from..from + 2048];
    var part := window[i * 16..i * 16 + 16];
    SumOfSixteen(part);
    forall k: nat | k < 16 ensures part[k] == total[from + 16 * i + k] {
      assert part[k] == window[i * 16 + k];
    }
    hide Sum;
    assert WavePoint(window, i) == Clamp(Sum(part) / 16.0);
  }

  /** Frame k of a stream: its time in whole milliseconds, its spectrum and its waveform. */
  ghost predicate Describes(spectrum: seq<real> -> seq<real>, total: seq<real>, k: nat, f: Frame) {
    && 512 * k + 2048 <= |total|
    && f.timeMs == 512000 * k / 44100
    && f.spec == spectrum(total[512 * k..512 * k + 2048])
    && |f.wave| == 128
    && forall i :: 0 <= i < 128 ==> IsCutMean(total, 512 * k + 16 * i, f.wave[i])
  }

  lemma FrameDescribed(spectrum: seq<real> -> seq<real>, total: seq<real>, k: nat)
    requires 512 * k + 2048 <= |total|
    ensures Describes(spectrum, total, k, FrameAt(spectrum, total, k))
  {
    hide IsCutMean, WavePoint;
    var f := FrameAt(spectrum, total, k);
    forall i | 0 <= i < 128 ensures IsCutMean(total, 512 * k + 16 * i, f.wave[i]) {
      WavePointIs(total, 512 * k, i);
    }
  }

  lemma SeenDescribed(spectrum: seq<real> -> seq<real>, total: seq<real>, s: State)
    requires Seen(spectrum, total, s)
    ensures forall k :: 0 <= k < |s.frames| ==> Describes(spectrum, total, k, s.frames[k])
  {
    hide Describes;
    forall k | 0 <= k < |s.frames| ensures Describes(spectrum, total, k, s.frames[k]) {
      assert s.frames[k] == FrameAt(spectrum, total, k);
      FrameDescribed(spectrum, total, k);
    }
  }

  /** However the stream is split, every frame is the one that belongs to its place in the stream. */
  lemma FramesAreDescribed(spectrum: seq<real> -> seq<real>, bufs: seq<seq<real>>)
    ensures var s := FeedAll(spectrum, bufs);
            forall k :: 0 <= k < |s.frames| ==> Describes(spectrum, Concat(bufs), k, s.frames[k])
  {
    AllSeen(spectrum, bufs);
    SeenDescribed(spectrum, Concat(bufs), FeedAll(spectrum, bufs));
  }

  // ---------------------------------------------------------------- seeking

  /** A linear scan: the first frame at or after the position, else the last frame. */
  function Scan(frames: seq<Frame>, position: int, from: nat): (r: nat)
    requires from < |frames|
    ensures from <= r < |frames|
    decreases |frames| - from
  {
    if frames[from].timeMs >= position || from + 1 == |frames| then from
    else Scan(frames, position, from + 1)
  }

  lemma {:induction false} ScanIs(frames: seq<Frame>, position: int, from: nat, r: nat)
    requires from <= r < |frames|
    requires forall i :: from <= i < r ==> frames[i].timeMs < position
    requires frames[r].timeMs >= position || r + 1 == |frames|
    ensures Scan(frames, position, from) == r
    decreases r - from
  {
    if from < r {
      ScanIs(frames, position, from + 1, r);
    }
  }

  // ---------------------------------------------------------------- the class

  class Analyzer {
    const spectrum: seq<real> -> seq<real>
    var pcm: seq<real>
    var samplesIn: nat
    var frames: seq<Frame>
    /** Everything received since the last analyzeFile. */
    ghost var total: seq<real>

    ghost function Abs(): State
      reads this
    {
      State(pcm, samplesIn, frames)
    }

    ghost predicate Valid()
      reads this
    {
      Seen(spectrum, total, Abs()) && |pcm| < FFT_N
    }

    constructor (spectrum: seq<real> -> seq<real>)
      ensures Valid() && total == [] && Abs() == CLEARED && this.spectrum == spectrum
    {
      this.spectrum := spectrum;
      pcm, samplesIn, frames, total := [], 0, [], [];
    }

    /** The part of analyzeFile that clears the state. */
    method AnalyzeFile()
      modifies this
      ensures Valid() && total == [] && Abs() == CLEARED
    {
      pcm, samplesIn, frames, total := [], 0, [], [];
    }

    /** Downsampling of the current window: two nested loops over the samples. */
    method DownSample() returns (wave: seq<real>)
      requires |pcm| >= FFT_N
      ensures wave == Wave(pcm[..FFT_N])
      ensures |wave| == 128 && forall i :: 0 <= i < 128 ==> IsCutMean(pcm, 16 * i, wave[i])
    {
      var window := pcm[..FFT_N];
      wave := [];
      for i := 0 to WAVE_PTS
        invariant |wave| == i && forall k :: 0 <= k < i ==> wave[k] == WavePoint(window, k)
      {
        var s := 0.0;
        for j := 0 to 16
          invariant s == Sum(window[i * 16..i * 16 + j])
        {
          s := s + pcm[i * 16 + j];
          var part := window[i * 16..i * 16 + j + 1];
          assert part[..|part| - 1] == window[i * 16..i * 16 + j];
        }
        wave := wave + [Clamp(s / 16.0)];
      }
      forall i | 0 <= i < 128 ensures IsCutMean(pcm, 16 * i, wave[i]) { WavePointIs(pcm, 0, i); }
    }

    method ProcessBuffer(buf: seq<real>)
      requires Valid()
      modifies this
      ensures Valid() && total == old(total) + buf
      ensures Abs() == Feed(spectrum, old(Abs()), buf)
      ensures |frames| == Count(|total|)
      ensures forall k :: 0 <= k < |frames| ==> Describes(spectrum, total, k, frames[k])
    {
      MoreSeen(spectrum, total, buf, Abs());
      pcm := pcm + buf;
      total := total + buf;
      ghost var first := Abs();
      DrainSeen(spectrum, total, first);
      while |pcm| >= FFT_N
        invariant Drain(spectrum, Abs()) == Drain(spectrum, first)
        invariant total == old(total) + buf
        decreases |pcm|
      {
        hide Seen, FramesOf, Count, Wave;
        var wave := DownSample();
        frames := frames + [Frame(samplesIn * 1000 / SAMPLE_RATE, spectrum(pcm[..FFT_N]), wave)];
        samplesIn := samplesIn + HOP;
        pcm := pcm[HOP..];
      }
      SeenCount(spectrum, total, Abs());
      SeenDescribed(spectrum, total, Abs());
    }

    /** The frame seekTo shows: by binary search what a linear scan would find. */
    method SeekTo(position: int) returns (r: Option<nat>)
      requires Valid()
      ensures r == if frames == [] then None else Some(Scan(frames, position, 0))
    {
      if |frames| == 0 {
        return None;
      }
      SeenTimes(spectrum, total, Abs());
      var lo, hi := 0, |frames| - 1;
      while lo < hi
        invariant 0 <= lo <= hi < |frames|
        invariant forall i :: 0 <= i < lo ==> frames[i].timeMs < position
        invariant frames[hi].timeMs >= position || hi + 1 == |frames|
      {
        var mid := (lo + hi) / 2;
        if frames[mid].timeMs < position {
          lo := mid + 1;
        } else {
          hi := mid;
        }
      }
      ScanIs(frames, position, 0, lo);
      r := Some(lo);
    }
  }
}
