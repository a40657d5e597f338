/**
 * The bookkeeping of sources/src/sdl.cpp: what the two SDL presenters make
 * of a decoded frame, the counter/reset/clamp skeleton of
 * `synchronize_audio`, and the fixed output buffer of `SdlAudio` that
 * `write` fills and `_audio_callback` drains.
 */
module Sdl {
  import opened Wrappers
  import opened Proto
  import Clip

  // ---------------------------------------------------------------------
  // Presenters
  // ---------------------------------------------------------------------

  /** `SdlVideoPresenter::prepare`: a frame that is not an FFmpeg frame
      gives none; an FFmpeg frame gives a new SDL video frame carrying the
      input's pts (the pixels the blitter copies are not modelled). */
  function VideoPrepare(f: Frame): (r: Option<Frame>)
    ensures r.Some? <==> f.kind == FfmpegFrame
    ensures r.Some? ==> r.value.kind == SdlVideoFrame && r.value.pts == f.pts
  {
    if f.kind == FfmpegFrame then Some(SetPts(NewFrame(SdlVideoFrame), f.pts)) else None
  }

  /** The video presenter keeps pts, so a clip presented through it has its
      whole queue at or after `read_pts_` once it has seeked. */
  lemma VideoPresenterKeepsPts()
    ensures Clip.KeepsPts(VideoPrepare)
  {
  }

  /** `SdlAudioPresenter::prepare`: an FFmpeg frame that the audio decoder
      manages to resample (`decodes`, the outcome of the resampler) gives a
      new SDL audio frame, which is never given a pts; anything else gives
      none. */
  function AudioPrepare(decodes: Frame -> bool, f: Frame): (r: Option<Frame>)
    ensures r.Some? <==> f.kind == FfmpegFrame && decodes(f)
    ensures r.Some? ==> r.value == NewFrame(SdlAudioFrame)
  {
    if f.kind == FfmpegFrame && decodes(f) then Some(NewFrame(SdlAudioFrame)) else None
  }

  /** Unlike the video presenter, the audio presenter keeps pts exactly when
      every frame it accepts already has pts 0. */
  lemma AudioPresenterKeepsPtsOnlyAtZero(decodes: Frame -> bool)
    ensures Clip.KeepsPts(f => AudioPrepare(decodes, f)) <==>
      forall f: Frame :: f.kind == FfmpegFrame && decodes(f) ==> f.pts == 0
  {
    var p := (f: Frame) => AudioPrepare(decodes, f);
    if Clip.KeepsPts(p) {
      forall f: Frame | f.kind == FfmpegFrame && decodes(f) ensures f.pts == 0 {
        assert p(f).Some?;
      }
    }
  }

  // ---------------------------------------------------------------------
  // synchronize_audio
  // ---------------------------------------------------------------------

  /** `AUDIO_DIFF_AVG_NB`: measures taken before the average is trusted. */
  const AudioDiffAvgNb: int := 20

  /** `SAMPLE_CORRECTION_PERCENT_MAX`. */
  const SampleCorrectionPercentMax: int := 10

  /** C's `/` on `int`: the quotient truncated toward zero. */
  function CDiv(a: int, b: int): (q: int)
    requires b > 0
    ensures a >= 0 ==> q == a / b
    ensures a < 0 ==> q == -((-a) / b)
  {
    if a >= 0 then a / b else -((-a) / b)
  }

  function Min(a: int, b: int): int { if a <= b then a else b }

  function Max(a: int, b: int): int { if a >= b then a else b }

  /** The floating-point parts of one call, as the integers and booleans
      they are reduced to: `small` is `fabs(diff) < AV_NOSYNC_THRESHOLD`
      (10 s), `cum` the `int` that `diff + audio_diff_avg_coef *
      audio_diff_cum` is truncated to, `aboveThreshold` is `fabs(avg_diff)
      >= audio_diff_threshold`, and `correction` is `(int)(diff *
      spec.freq)`. */
  datatype Measure = Measure(small: bool, cum: int, aboveThreshold: bool, correction: int)

  /** The two globals `audio_diff_avg_count` and `audio_diff_cum`. */
  datatype DiffFilter = DiffFilter(avgCount: int, cum: int)

  /** The fewest samples a correction may ask for: 90% of `nbSamples`. */
  function MinSamples(nbSamples: int): int {
    CDiv(nbSamples * (100 - SampleCorrectionPercentMax), 100)
  }

  /** The most samples a correction may ask for: 110% of `nbSamples`. */
  function MaxSamples(nbSamples: int): int {
    CDiv(nbSamples * (100 + SampleCorrectionPercentMax), 100)
  }

  /** `FFMIN(FFMAX(nb_samples + correction, min_nb_samples), max_nb_samples)`. */
  function CorrectedSamples(nbSamples: int, correction: int): int {
    Min(Max(nbSamples + correction, MinSamples(nbSamples)), MaxSamples(nbSamples))
  }

  /** For a non-negative sample count the corrected count never leaves
      90%..110% of it; inside that window it is exactly the count plus the
      correction, and outside it the nearer bound. */
  lemma CorrectionWithinTenPercent(nbSamples: int, correction: int)
    requires nbSamples >= 0
    ensures MinSamples(nbSamples) <= nbSamples <= MaxSamples(nbSamples)
    ensures MinSamples(nbSamples) <= CorrectedSamples(nbSamples, correction) <= MaxSamples(nbSamples)
    ensures 10 * MinSamples(nbSamples) <= 9 * nbSamples && 11 * nbSamples < 10 * MaxSamples(nbSamples) + 10
    ensures MinSamples(nbSamples) <= nbSamples + correction <= MaxSamples(nbSamples) ==>
      CorrectedSamples(nbSamples, correction) == nbSamples + correction
    ensures nbSamples + correction < MinSamples(nbSamples) ==> CorrectedSamples(nbSamples, correction) == MinSamples(nbSamples)
    ensures nbSamples + correction > MaxSamples(nbSamples) ==> CorrectedSamples(nbSamples, correction) == MaxSamples(nbSamples)
  {
  }

  /** One call of `synchronize_audio(spec, nb_samples)`: the filter state
      after it and the number of samples wanted. A large difference resets
      the filter and changes nothing; while fewer than `AUDIO_DIFF_AVG_NB`
      measures are in, the count goes up by one and the sample count is
      returned as is; the count never passes `AUDIO_DIFF_AVG_NB`; once it
      has reached it, the count stays and an average above the threshold
      asks for the clamped correction, any other average for the sample
      count as is; and a changed sample count means a trusted average above
      the threshold. */
  function Synchronize(f: DiffFilter, nbSamples: int, m: Measure): (r: (DiffFilter, int))
    ensures !m.small ==> r == (DiffFilter(0, 0), nbSamples)
    ensures m.small ==> r.0.cum == m.cum
    ensures m.small && f.avgCount < AudioDiffAvgNb ==> r == (DiffFilter(f.avgCount + 1, m.cum), nbSamples)
    ensures 0 <= f.avgCount <= AudioDiffAvgNb ==> 0 <= r.0.avgCount <= AudioDiffAvgNb
    ensures r.1 != nbSamples ==>
      m.small && m.aboveThreshold && f.avgCount >= AudioDiffAvgNb && r.1 == CorrectedSamples(nbSamples, m.correction)
    ensures m.small && f.avgCount >= AudioDiffAvgNb ==> r.0 == DiffFilter(f.avgCount, m.cum)
    ensures m.small && f.avgCount >= AudioDiffAvgNb && m.aboveThreshold ==> r.1 == CorrectedSamples(nbSamples, m.correction)
    ensures m.small && f.avgCount >= AudioDiffAvgNb && !m.aboveThreshold ==> r.1 == nbSamples
    ensures r.0.avgCount <= Max(f.avgCount, 0) + 1
  {
    if !m.small then (DiffFilter(0, 0), nbSamples)
    else if f.avgCount < AudioDiffAvgNb then (DiffFilter(f.avgCount + 1, m.cum), nbSamples)
    else (DiffFilter(f.avgCount, m.cum), if m.aboveThreshold then CorrectedSamples(nbSamples, m.correction) else nbSamples)
  }

  /** The sample counts wanted by a run of calls, one per frame. */
  function Wanted(f: DiffFilter, nbs: seq<int>, ms: seq<Measure>): (r: seq<int>)
    requires |nbs| == |ms|
    ensures |r| == |ms|
    decreases |ms|
  {
    if ms == [] then []
    else [Synchronize(f, nbs[0], ms[0]).1] + Wanted(Synchronize(f, nbs[0], ms[0]).0, nbs[1..], ms[1..])
  }

  /** No correction before the filter is warm: a call that changes the
      sample count comes at least `AUDIO_DIFF_AVG_NB` calls after the count
      stood at `f.avgCount` -- so after a reset, the first twenty frames are
      always played at their own length. */
  lemma {:induction false} NoCorrectionWhileWarmingUp(f: DiffFilter, nbs: seq<int>, ms: seq<Measure>, i: nat)
    requires |nbs| == |ms| && i < |ms|
    requires Wanted(f, nbs, ms)[i] != nbs[i]
    ensures Max(f.avgCount, 0) + i >= AudioDiffAvgNb
    decreases i
  {
    var g := Synchronize(f, nbs[0], ms[0]).0;
    if i > 0 {
      assert Wanted(f, nbs, ms)[i] == Wanted(g, nbs[1..], ms[1..])[i - 1];
      NoCorrectionWhileWarmingUp(g, nbs[1..], ms[1..], i - 1);
      assert Max(g.avgCount, 0) <= Max(f.avgCount, 0) + 1;
    }
  }

  /** The globals `audio_diff_avg_count` and `audio_diff_cum`, both
      initialised to 0, with `synchronize_audio` as their one operation. */
  class AudioDiff {
    var avgCount: int
    var cum: int

    function Filter(): DiffFilter
      reads this
    {
      DiffFilter(avgCount, cum)
    }

    constructor ()
      ensures avgCount == 0 && cum == 0
    {
      avgCount := 0;
      cum := 0;
    }

    /** `synchronize_audio(spec, nb_samples)`; `spec.freq` enters only
        through `m.correction`. */
    method SynchronizeAudio(nbSamples: int, m: Measure) returns (wanted: int)
      modifies this
      ensures (Filter(), wanted) == Synchronize(old(Filter()), nbSamples, m)
    {
      wanted := nbSamples;
      if m.small {
        cum := m.cum;
        if avgCount < AudioDiffAvgNb {
          avgCount := avgCount + 1;
        } else if m.aboveThreshold {
          wanted := nbSamples + m.correction;
          var minNb := CDiv(nbSamples * (100 - SampleCorrectionPercentMax), 100);
          var maxNb := CDiv(nbSamples * (100 + SampleCorrectionPercentMax), 100);
          wanted := Min(Max(wanted, minNb), maxNb);
        }
      } else {
        avgCount := 0;
        cum := 0;
      }
    }
  }

  // ---------------------------------------------------------------------
  // SdlAudio
  // ---------------------------------------------------------------------

  /** `audio_buf_sz_`. */
  const BufSize: nat := 4096 * 4

  /** FFmpeg's `AV_SAMPLE_FMT_S16` enumerator. */
  const AvSampleFmtS16: int := 1

  /** `SdlAudioSpec`. */
  datatype AudioSpec = AudioSpec(freq: int, channels: int, format: int, channelLayout: int)

  /** The buffer after `_audio_callback` drains `len` of its `index` bytes,
      as written: the rest moves to the front and zeros are written from one
      past the new index, so the byte at the new index keeps what it held. */
  function Drained(b: seq<byte>, index: nat, len: nat): (r: seq<byte>)
    requires len <= index <= |b| && index - len < |b|
    ensures |r| == |b| && r[..index - len] == b[len..index]
    ensures r[index - len] == b[index - len]
    ensures forall k :: index - len < k < |b| ==> r[k] == 0
  {
    b[len..index] + [b[index - len]] + Zeros(|b| - (index - len) - 1)
  }

  /** The same drain as evidently intended: zeros from the new index on,
      so that the next `write` mixes into silence. */
  function DrainedCorrected(b: seq<byte>, index: nat, len: nat): (r: seq<byte>)
    requires len <= index <= |b|
    ensures |r| == |b| && r[..index - len] == b[len..index]
    ensures forall k :: index - len <= k < |b| ==> r[k] == 0
  {
    b[len..index] + Zeros(|b| - (index - len))
  }

  /** The one-byte gap: a full buffer of non-zero bytes drained by 4096
      keeps a non-zero byte just past the pending data, where the
      corrected drain leaves silence. */
  lemma DrainLeavesStaleByte()
    ensures var b := seq(BufSize, k => 1 as byte);
      Drained(b, BufSize, 4096)[BufSize - 4096] == 1 &&
      DrainedCorrected(b, BufSize, 4096)[BufSize - 4096] == 0
  {
  }

  /** `SdlAudio`: the output buffer the mixer writes into and SDL's
      callback drains, with `write_` set once it is more than half full. */
  class SdlAudio {
    var spec: AudioSpec
    var enough: bool
    const buf: array<byte>
    var index: nat

    ghost predicate Valid()
      reads this
    {
      buf.Length == BufSize && index <= BufSize
    }

    /** The bytes written and not yet handed to SDL. */
    function Pending(): (p: seq<byte>)
      reads this, buf
      requires Valid()
    {
      buf[..index]
    }

    /** `SdlAudio()`: `write_(false), audio_buf_index_(0)`. */
    constructor ()
      ensures Valid() && fresh(buf) && !enough && index == 0
    {
      enough := false;
      index := 0;
      buf := new byte[BufSize];
      spec := AudioSpec(0, 0, 0, 0);
    }

    /** `open(sp)`: keeps `sp` with the format forced to signed 16-bit and
        no channel layout, clears `write_` and empties the buffer (its bytes
        stay as they are). */
    method Open(sp: AudioSpec)
      requires Valid()
      modifies this
      ensures Valid() && spec == sp.(format := AvSampleFmtS16, channelLayout := 0)
      ensures !enough && index == 0 && Pending() == []
    {
      spec := sp;
      enough := false;
      spec := spec.(format := AvSampleFmtS16, channelLayout := 0);
      index := 0;
    }

    /** `sigwrite()`. */
    method SigWrite()
      modifies this
      ensures enough && index == old(index) && spec == old(spec)
    {
      enough := true;
    }

    /** `enough_audio()`. */
    method EnoughAudio() returns (r: bool)
      ensures r == enough
    {
      r := enough;
    }

    /** `write(channel, frame)`: `SDL_MixAudio` fills the `frame.size`
        bytes after the pending ones (`mixed` is what it produces there);
        the index advances by that size, and `write_` and the result both
        say whether the buffer is now more than half full. */
    method Write(mixed: seq<byte>) returns (r: bool)
      requires Valid() && index + |mixed| <= BufSize
      modifies this, buf
      ensures Valid() && spec == old(spec)
      ensures index == old(index) + |mixed|
      ensures Pending() == old(Pending()) + mixed
      ensures buf[index..] == old(buf[..])[index..]
      ensures r == enough && r == (index > BufSize / 2)
    {
      forall k | index <= k < index + |mixed| {
        buf[k] := mixed[k - index];
      }
      index := index + |mixed|;
      enough := index > BufSize / 2;
      r := index > BufSize / 2;
    }

    /** `_audio_callback(stream, len)` as written: once `write_` is set
        and `len` bytes are pending, they are copied out, the rest moves to
        the front, the bytes after it are zeroed from one past the new
        index, and `write_` is cleared; otherwise SDL gets `len` zeros and
        nothing changes. The source needs the zeroed length
        `audio_buf_sz_ - audio_buf_index_ - 1` not to wrap around. */
    method AudioCallback(stream: array<byte>, len: nat)
      requires Valid() && stream != buf && stream.Length == len
      requires enough && index >= len ==> index - len < BufSize
      modifies this, buf, stream
      ensures Valid() && spec == old(spec)
      ensures old(enough && index >= len) ==>
        && stream[..] == old(Pending()[..len])
        && index == old(index) - len && !enough
        && Pending() == old(Pending()[len..])
        && buf[..] == Drained(old(buf[..]), old(index), len)
      ensures !old(enough && index >= len) ==>
        stream[..] == Zeros(len) && index == old(index) && enough == old(enough) && buf[..] == old(buf[..])
    {
      if enough && index >= len {
        forall k | 0 <= k < len {
          stream[k] := buf[k];
        }
        forall k | 0 <= k < index - len {
          buf[k] := buf[k + len];
        }
        index := index - len;
        forall k | index + 1 <= k < BufSize {
          buf[k] := 0;
        }
        enough := false;
      } else {
        forall k | 0 <= k < len {
          stream[k] := 0;
        }
      }
    }

    /** `_audio_callback` as evidently intended: the same, but zeroing
        from the new index itself, so the whole buffer past the pending
        bytes is silence. */
    method AudioCallbackCorrected(stream: array<byte>, len: nat)
      requires Valid() && stream != buf && stream.Length == len
      modifies this, buf, stream
      ensures Valid() && spec == old(spec)
      ensures old(enough && index >= len) ==>
        && stream[..] == old(Pending()[..len])
        && index == old(index) - len && !enough
        && Pending() == old(Pending()[len..])
        && buf[..] == DrainedCorrected(old(buf[..]), old(index), len)
        && forall k :: index <= k < BufSize ==> buf[k] == 0
      ensures !old(enough && index >= len) ==>
        stream[..] == Zeros(len) && index == old(index) && enough == old(enough) && buf[..] == old(buf[..])
    {
      if enough && index >= len {
        forall k | 0 <= k < len {
          stream[k] := buf[k];
        }
        forall k | 0 <= k < index - len {
          buf[k] := buf[k + len];
        }
        index := index - len;
        forall k | index <= k < BufSize {
          buf[k] := 0;
        }
        enough := false;
      }  else {
        forall k | 0 <= k < len {
          stream[k] := 0;
        }
      }
    }
  }
}
