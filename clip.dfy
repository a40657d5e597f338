/**
 * `MediaClip` and `MediaObject` of sources/include/vd/timeline.hpp and
 * sources/src/timeline.cpp: a clip bound to one stream of a shared decode
 * session, with its queue of prepared frames (the prefetch engine).
 */
module Clip {
  import opened Wrappers
  import opened Proto
  import opened Decoding
  import Timeline

  /** `preload_next` fills the queue up to this many frames. */
  const QueueDepth: nat := 30

  /** The decoded frames `preload_next` keeps, in decode order: those whose
      pts is not below `read_pts_`. */
  function Accepted(s: seq<Frame>, readPts: nat): seq<Frame>
  {
    if s == [] then []
    else Accepted(s[..|s| - 1], readPts) + (if s[|s| - 1].pts >= readPts then [s[|s| - 1]] else [])
  }

  lemma {:induction false} AcceptedAppend(a: seq<Frame>, b: seq<Frame>, readPts: nat)
    ensures Accepted(a + b, readPts) == Accepted(a, readPts) + Accepted(b, readPts)
    decreases |b|
  {
    if b == [] {
      assert a + b == a;
    } else {
      assert (a + b)[..|a + b| - 1] == a + b[..|b| - 1];
      AcceptedAppend(a, b[..|b| - 1], readPts);
    }
  }

  /** No frame below `read_pts_` is ever kept, and every kept frame is one the
      decoder produced. */
  lemma {:induction false} AcceptedAbove(s: seq<Frame>, readPts: nat)
    ensures forall i :: 0 <= i < |Accepted(s, readPts)| ==>
      Accepted(s, readPts)[i].pts >= readPts && Accepted(s, readPts)[i] in s
    decreases |s|
  {
    if s != [] {
      AcceptedAbove(s[..|s| - 1], readPts);
      assert forall f :: f in s[..|s| - 1] ==> f in s;
    }
  }

  /** The presenter turns every frame that can be kept into a frame: the
      requirement under which `preload_next` never enqueues a null result. */
  ghost predicate Presents(prepare: Frame -> Option<Frame>, s: seq<Frame>, readPts: nat) {
    forall f :: f in s && f.pts >= readPts ==> prepare(f).Some?
  }

  /** `presenter_->prepare(frame)` for each kept frame, in order (where
      `Presents` holds, every one of these results is a frame). */
  function PrepareAll(prepare: Frame -> Option<Frame>, a: seq<Frame>): (r: seq<Frame>)
    ensures |r| == |a|
    ensures forall i :: 0 <= i < |a| && prepare(a[i]).Some? ==> r[i] == prepare(a[i]).value
  {
    seq(|a|, i requires 0 <= i < |a| => prepare(a[i]).GetOr(a[i]))
  }

  lemma PrepareAllAppend(prepare: Frame -> Option<Frame>, a: seq<Frame>, b: seq<Frame>)
    ensures PrepareAll(prepare, a + b) == PrepareAll(prepare, a) + PrepareAll(prepare, b)
  {
  }

  /** The state of `preload_next`'s loop after reading `s[c0..c]` with
      `need` frames still to keep: the queue holds `f0` followed by the
      prepared frames kept so far, and the loop will stop at `stop`. */
  ghost predicate Filling(prepare: Frame -> Option<Frame>, s: seq<Frame>, c0: nat, c: nat, readPts: nat,
                          need: nat, stop: nat, f0: seq<Frame>, frames: seq<Frame>) {
    && c0 <= c <= |s|
    && frames == f0 + PrepareAll(prepare, Accepted(s[c0..c], readPts))
    && StopAt(s, c, readPts, need) == stop
    && |Accepted(s[c..], readPts)| >= need
  }

  /** While frames are still needed, the stream has one more to read. */
  lemma FillingNotDone(prepare: Frame -> Option<Frame>, s: seq<Frame>, c0: nat, c: nat, readPts: nat,
                       need: nat, stop: nat, f0: seq<Frame>, frames: seq<Frame>)
    requires Filling(prepare, s, c0, c, readPts, need, stop, f0, frames) && need > 0
    ensures c < |s|
  {
  }

  lemma SliceCons(s: seq<Frame>, c: nat, e: nat)
    requires c < e <= |s|
    ensures s[c..e] == [s[c]] + s[c + 1..e]
  {
  }

  lemma SliceSnoc(s: seq<Frame>, c0: nat, c: nat)
    requires c0 <= c < |s|
    ensures s[c0..c + 1] == s[c0..c] + [s[c]]
  {
  }

  /** A read frame below `readPts` changes neither the queue nor where the
      loop stops. */
  lemma SkipOne(prepare: Frame -> Option<Frame>, s: seq<Frame>, c0: nat, c: nat, readPts: nat,
                need: nat, stop: nat, f0: seq<Frame>, frames: seq<Frame>)
    requires Filling(prepare, s, c0, c, readPts, need, stop, f0, frames) && need > 0
    requires c < |s| && s[c].pts < readPts
    ensures Filling(prepare, s, c0, c + 1, readPts, need, stop, f0, frames)
  {
    AcceptedFront(s, c, readPts);
    SliceSnoc(s, c0, c);
    AcceptedAppend(s[c0..c], [s[c]], readPts);
  }

  /** A kept frame is appended, prepared, and lowers `need` by one. */
  lemma KeepOne(prepare: Frame -> Option<Frame>, s: seq<Frame>, c0: nat, c: nat, readPts: nat,
                need: nat, stop: nat, f0: seq<Frame>, frames: seq<Frame>, next: Frame)
    requires Filling(prepare, s, c0, c, readPts, need, stop, f0, frames) && need > 0
    requires c < |s| && s[c].pts >= readPts && prepare(s[c]) == Some(next)
    ensures Filling(prepare, s, c0, c + 1, readPts, need - 1, stop, f0, frames + [next])
  {
    AcceptedFront(s, c, readPts);
    SliceSnoc(s, c0, c);
    AcceptedAppend(s[c0..c], [s[c]], readPts);
    PrepareAllAppend(prepare, Accepted(s[c0..c], readPts), [s[c]]);
  }

  /** A presenter that gives each frame it prepares the pts of its input, as
      `SdlVideoPresenter::prepare` does. */
  ghost predicate KeepsPts(prepare: Frame -> Option<Frame>) {
    forall f :: prepare(f).Some? ==> prepare(f).value.pts == f.pts
  }

  /** The position after which `preload_next` stops reading: just past the
      `need`-th kept frame from position `c`. */
  function StopAt(s: seq<Frame>, c: nat, readPts: nat, need: nat): nat
    decreases |s| - c
  {
    if need == 0 || c >= |s| then c
    else if s[c].pts < readPts then StopAt(s, c + 1, readPts, need)
    else StopAt(s, c + 1, readPts, need - 1)
  }

  lemma AcceptedFront(s: seq<Frame>, c: nat, readPts: nat)
    requires c < |s|
    ensures Accepted(s[c..], readPts) == Accepted([s[c]], readPts) + Accepted(s[c + 1..], readPts)
  {
    assert s[c..] == [s[c]] + s[c + 1..];
    AcceptedAppend([s[c]], s[c + 1..], readPts);
  }

  /** Reading up to `StopAt` keeps exactly `need` frames, and the last frame
      read is one that was kept. */
  lemma {:induction false} StopAtKeepsNeed(s: seq<Frame>, c: nat, readPts: nat, need: nat)
    requires c <= |s| && |Accepted(s[c..], readPts)| >= need
    ensures c <= StopAt(s, c, readPts, need) <= |s|
    ensures |Accepted(s[c..StopAt(s, c, readPts, need)], readPts)| == need
    ensures StopAt(s, c, readPts, need) > c ==> s[StopAt(s, c, readPts, need) - 1].pts >= readPts
    decreases |s| - c
  {
    if need == 0 {
      assert s[c..c] == [];
    } else {
      AcceptedFront(s, c, readPts);
      var need' := if s[c].pts < readPts then need else need - 1;
      StopAtKeepsNeed(s, c + 1, readPts, need');
      var e := StopAt(s, c, readPts, need);
      assert e == StopAt(s, c + 1, readPts, need');
      SliceCons(s, c, e);
      AcceptedAppend([s[c]], s[c + 1..e], readPts);
    }
  }

  /** With a pts-keeping presenter, every prepared frame is at or after `read_pts_`. */
  lemma QueuedAbove(prepare: Frame -> Option<Frame>, s: seq<Frame>, readPts: nat)
    requires KeepsPts(prepare) && Presents(prepare, s, readPts)
    ensures forall i :: 0 <= i < |Accepted(s, readPts)| ==> prepare(Accepted(s, readPts)[i]).Some?
    ensures forall f :: f in PrepareAll(prepare, Accepted(s, readPts)) ==> f.pts >= readPts
  {
  }

  /** What `preload_next` needs not to dereference a null frame when it
      reads `s` from position `c` with `need` frames missing: enough frames
      at or after `readPts` left, all accepted by the presenter. */
  ghost predicate CanFill(prepare: Frame -> Option<Frame>, s: seq<Frame>, c: nat, readPts: nat, need: nat) {
    c <= |s| && |Accepted(s[c..], readPts)| >= need && Presents(prepare, s[c..], readPts)
  }

  /** The prepared frames a refill from position `c` appends when `need`
      frames are missing: the kept frames up to where the loop stops. */
  ghost function Refill(prepare: Frame -> Option<Frame>, s: seq<Frame>, c: nat, readPts: nat, need: nat): (r: seq<Frame>)
    requires c <= |s| && |Accepted(s[c..], readPts)| >= need
    ensures |r| == need
  {
    StopAtKeepsNeed(s, c, readPts, need);
    PrepareAll(prepare, Accepted(s[c..StopAt(s, c, readPts, need)], readPts))
  }

  /** With a pts-keeping presenter, a refill holds only frames at or after
      `readPts`. */
  lemma RefillAbove(prepare: Frame -> Option<Frame>, s: seq<Frame>, c: nat, readPts: nat, need: nat)
    requires c <= |s| && |Accepted(s[c..], readPts)| >= need
    requires KeepsPts(prepare) && Presents(prepare, s[c..], readPts)
    ensures forall f :: f in Refill(prepare, s, c, readPts, need) ==> f.pts >= readPts
  {
    StopAtKeepsNeed(s, c, readPts, need);
    var e := StopAt(s, c, readPts, need);
    assert forall f :: f in s[c..e] ==> f in s[c..];
    QueuedAbove(prepare, s[c..e], readPts);
  }

  /** Frames in non-decreasing pts order. */
  ghost predicate PtsSorted(s: seq<Frame>) {
    forall i, j :: 0 <= i < j < |s| ==> s[i].pts <= s[j].pts
  }

  /** Discarding frames below `read_pts_` keeps a pts-ordered stream in
      order. */
  lemma {:induction false} AcceptedSorted(s: seq<Frame>, readPts: nat)
    requires PtsSorted(s)
    ensures PtsSorted(Accepted(s, readPts))
    decreases |s|
  {
    if s != [] {
      var init, last := s[..|s| - 1], s[|s| - 1];
      AcceptedSorted(init, readPts);
      AcceptedAbove(init, readPts);
      forall f | f in init
        ensures f.pts <= last.pts
      {
        var k :| 0 <= k < |init| && init[k] == f;
      }
    }
  }

  /** A pts-keeping presenter that accepts every frame keeps their order. */
  lemma PrepareAllSorted(prepare: Frame -> Option<Frame>, a: seq<Frame>)
    requires KeepsPts(prepare) && PtsSorted(a)
    requires forall i :: 0 <= i < |a| ==> prepare(a[i]).Some?
    ensures PtsSorted(PrepareAll(prepare, a))
  {
  }

  /** With a pts-keeping presenter, a refill from a pts-ordered rest of the
      stream is in pts order. Decode order is kept, so a stream out of pts
      order gives a queue out of pts order. */
  lemma RefillSorted(prepare: Frame -> Option<Frame>, s: seq<Frame>, c: nat, readPts: nat, need: nat)
    requires c <= |s| && |Accepted(s[c..], readPts)| >= need
    requires KeepsPts(prepare) && Presents(prepare, s[c..], readPts) && PtsSorted(s[c..])
    ensures PtsSorted(Refill(prepare, s, c, readPts, need))
  {
    StopAtKeepsNeed(s, c, readPts, need);
    var e := StopAt(s, c, readPts, need);
    assert s[c..e] == s[c..][..e - c];
    assert forall f :: f in s[c..e] ==> f in s[c..];
    QueuedAbove(prepare, s[c..e], readPts);
    AcceptedSorted(s[c..e], readPts);
    PrepareAllSorted(prepare, Accepted(s[c..e], readPts));
  }

  /** What `SeekedTo` says, on the values it reads: the object's stream
      exists, `read_pts_` is `t`, and the queue is the refill from where
      the session lands for the clip start `clipStart`. */
  ghost predicate SeekedFrom(o: MediaObject, clipStart: nat, readPts: nat, frames: seq<Frame>, t: nat) {
    && o.streamId < |o.decoder.streams|
    && readPts == t
    && CanFill(o.presenter, o.Stream(), o.decoder.Located(o.streamId, clipStart + t), t, QueueDepth)
    && frames == Refill(o.presenter, o.Stream(), o.decoder.Located(o.streamId, clipStart + t), t, QueueDepth)
  }

  /** `MediaClip`: a media reference with its own start (the offset into the
      media) and length. */
  class MediaClip {
    const media: Media
    var start: nat
    var length: nat

    /** `MediaClip(media)`: start and length 0. */
    constructor (media: Media)
      ensures this.media == media && start == 0 && length == 0
    {
      this.media := media;
      start, length := 0, 0;
    }

    method SetStart(start: nat)
      modifies this`start
      ensures this.start == start
    {
      this.start := start;
    }

    method SetLength(length: nat)
      modifies this`length
      ensures this.length == length
    {
      this.length := length;
    }
  }

  /** `MediaObject`, with the fields of its base `TimeLineObject` (`start_`,
      `length_`, `playing_`: its place on the track). */
  class MediaObject {
    var start: nat
    var length: nat
    var playing: nat

    const clip: MediaClip
    const streamId: nat
    const decoder: DecodingState
    const presenter: Frame -> Option<Frame>

    /** Documented as the pts of the first frame in `frames_`. */
    var readyPts: nat
    var frames: seq<Frame>
    /** Frames below it are discarded; only `seek` sets it. */
    var readPts: nat

    ghost predicate Valid()
      reads this, decoder
    {
      decoder.Valid() && streamId < |decoder.streams|
    }

    /** The frames this object's stream yields, in decode order. */
    function Stream(): seq<Frame>
      requires streamId < |decoder.streams|
    {
      decoder.streams[streamId]
    }

    function Cursor(): (c: nat)
      reads this, decoder
      requires Valid()
      ensures c <= |Stream()|
    {
      decoder.cursors[streamId]
    }

    /** How many frames the queue lacks, as `frames_.size() < 30` counts it. */
    function Need(): nat
      reads this
    {
      if |frames| < QueueDepth then QueueDepth - |frames| else 0
    }

    /** What `preload_next` needs not to dereference a null frame: enough
        frames left to keep, and a presenter that accepts them. */
    ghost predicate CanRefill()
      reads this, decoder
      requires Valid()
    {
      CanFill(presenter, Stream(), Cursor(), readPts, Need())
    }

    /** Where `preload_next` will stop reading. */
    ghost function RefillStop(): nat
      reads this, decoder
      requires Valid()
    {
      StopAt(Stream(), Cursor(), readPts, Need())
    }

    /** The prepared frames `preload_next` will append. */
    ghost function Incoming(): (r: seq<Frame>)
      reads this, decoder
      requires Valid() && CanRefill()
      ensures |r| == Need()
    {
      Refill(presenter, Stream(), Cursor(), readPts, Need())
    }

    /** What `seek(t)` needs: from where the decoder lands, at least a full
        queue of frames at or after `t`, all accepted by the presenter. */
    ghost predicate CanSeek(t: nat)
      reads clip
      requires streamId < |decoder.streams|
    {
      CanFill(presenter, Stream(), decoder.Located(streamId, clip.start + t), t, QueueDepth)
    }

    /** The queue `show_next` pops from: the current one, or the refill
        when it is empty. */
    ghost function NextQueue(): (r: seq<Frame>)
      reads this, decoder
      requires Valid() && (frames != [] || CanRefill())
      ensures r != []
    {
      if frames != [] then frames else Incoming()
    }

    /** The queue `seek(t)` builds: the refill from where the session lands. */
    ghost function SeekQueue(t: nat): (r: seq<Frame>)
      reads clip
      requires streamId < |decoder.streams| && CanSeek(t)
      ensures |r| == QueueDepth
    {
      Refill(presenter, Stream(), decoder.Located(streamId, clip.start + t), t, QueueDepth)
    }

    /** The state `seek(t)` leaves: `read_pts_` is `t` and the queue is
        `SeekQueue(t)`. */
    ghost predicate SeekedTo(t: nat)
      reads this, clip
    {
      SeekedFrom(this, clip.start, readPts, frames, t)
    }

    /** Every queued frame is at or after `read_pts_`. */
    ghost predicate QueueAtOrAfterReadPts()
      reads this
    {
      forall i :: 0 <= i < |frames| ==> frames[i].pts >= readPts
    }

    /** The queue is in non-decreasing pts order. */
    ghost predicate QueueSorted()
      reads this
    {
      PtsSorted(frames)
    }

    /** The stream is in non-decreasing pts order from position `c` on. */
    ghost predicate SortedFrom(c: nat)
      requires streamId < |decoder.streams|
    {
      c <= |Stream()| && PtsSorted(Stream()[c..])
    }

    /** After `seek(t)`, with a pts-keeping presenter, the queue is in pts
        order when the stream is from where the session landed. */
    lemma SeekedSorted(t: nat)
      requires SeekedTo(t) && KeepsPts(presenter)
      requires SortedFrom(decoder.Located(streamId, clip.start + t))
      ensures QueueSorted()
    {
      RefillSorted(presenter, Stream(), decoder.Located(streamId, clip.start + t), t, QueueDepth);
    }

    /** `MediaObject()` followed by `setup(clip, stream_id, presenter)`: the
        decode session is the registry's entry for the clip's filename. */
    constructor (clip: MediaClip, streamId: nat, presenter: Frame -> Option<Frame>,
                 registry: MediaDecoder, session: DecodingState)
      requires var d := if clip.media.filename in registry.decoders
                        then registry.decoders[clip.media.filename] else session;
               d.Valid() && streamId < |d.streams|
      modifies registry
      ensures Valid()
      ensures this.clip == clip && this.streamId == streamId && this.presenter == presenter
      ensures clip.media.filename in old(registry.decoders) ==>
        decoder == old(registry.decoders)[clip.media.filename] && registry.decoders == old(registry.decoders)
      ensures clip.media.filename !in old(registry.decoders) ==>
        decoder == session && registry.decoders == old(registry.decoders)[clip.media.filename := session]
      ensures start == 0 && length == 0 && playing == 0 && frames == []
    {
      start, length, playing := 0, 0, 0;
      this.clip := clip;
      this.streamId := streamId;
      this.presenter := presenter;
      var d := registry.Decode(clip.media, session);
      decoder := d;
      frames := [];
      readPts, readyPts := 0, 0;
    }

    /** `TimeLineObject::set_start` (not overridden: the clip's own start is
        a separate value). */
    method SetStart(start: nat)
      modifies this`start
      ensures this.start == start
    {
      this.start := start;
    }

    /** `MediaObject::set_length`: the clip's length and the object's. */
    method SetLength(length: nat)
      modifies this`length, clip`length
      ensures this.length == length && clip.length == length
    {
      clip.SetLength(length);
      this.length := length;
    }

    method SetPlaying(playing: nat)
      modifies this`playing
      ensures this.playing == playing
    {
      this.playing := playing;
    }

    /** One pass of `preload_next`'s loop: reads the next frame of the
        stream and queues its prepared form, unless its pts is below
        `read_pts_`; `kept` tells which. */
    method ReadFrame(ghost s: seq<Frame>, ghost c0: nat, ghost stop: nat, ghost f0: seq<Frame>)
      returns (kept: bool)
      requires Valid() && s == Stream() && |frames| < QueueDepth
      requires Filling(presenter, s, c0, Cursor(), readPts, Need(), stop, f0, frames)
      requires Presents(presenter, s[c0..], readPts)
      modifies this`frames, decoder`cursors
      ensures Valid()
      ensures decoder.cursors == old(decoder.cursors)[streamId := old(Cursor()) + 1]
      ensures Filling(presenter, s, c0, Cursor(), readPts, Need(), stop, f0, frames)
    {
      ghost var c, need := Cursor(), Need();
      FillingNotDone(presenter, s, c0, c, readPts, need, stop, f0, frames);
      var frame := decoder.PeekFrame(streamId);
      if frame.value.pts < readPts {
        SkipOne(presenter, s, c0, c, readPts, need, stop, f0, frames);
        return false;
      }
      assert s[c] == s[c0..][c - c0];
      var prepared := presenter(frame.value);
      KeepOne(presenter, s, c0, c, readPts, need, stop, f0, frames, prepared.value);
      frames := frames + [prepared.value];
      return true;
    }

    /** `preload_next`: reads frames, discarding those below `read_pts_`,
        until the queue holds 30; then `ready_pts_` is the head's pts. */
    method PreloadNext()
      requires Valid() && CanRefill()
      modifies this`frames, this`readyPts, decoder`cursors
      ensures Valid()
      ensures frames == old(frames) + old(Incoming())
      ensures |frames| >= QueueDepth && |frames| == |old(frames)| + old(Need())
      ensures decoder.cursors == old(decoder.cursors)[streamId := old(RefillStop())]
      ensures readyPts == frames[0].pts
    {
      var skipped := 0;
      ghost var s, c0, f0 := Stream(), Cursor(), frames;
      ghost var stop := RefillStop();
      StopAtKeepsNeed(s, c0, readPts, Need());
      assert s[c0..c0] == [];
      while |frames| < QueueDepth
        invariant Valid()
        invariant decoder.cursors == old(decoder.cursors)[streamId := Cursor()]
        invariant Filling(presenter, s, c0, Cursor(), readPts, Need(), stop, f0, frames)
        decreases |s| - Cursor()
      {
        var kept := ReadFrame(s, c0, stop, f0);
        if !kept {
          skipped := skipped + 1;
        }
      }
      if frames != [] {
        readyPts := frames[0].pts;
      }
    }

    /** The first half of `seek(t)`: the queue emptied, `read_pts_` and
        `ready_pts_` set to `t`, the shared session repositioned to the
        CLIP's start plus `t`. */
    method Rewind(t: nat)
      requires Valid()
      modifies this`frames, this`readPts, this`readyPts, decoder`cursors
      ensures Valid() && frames == [] && readPts == t && readyPts == t
      ensures forall i :: 0 <= i < |decoder.streams| ==> decoder.cursors[i] == decoder.Located(i, clip.start + t)
    {
      frames := [];
      readPts, readyPts := t, t;
      decoder.Seek(clip.start + t);
    }

    /** `seek(t)`: rewinds, then refills the queue from where the session
        landed. */
    method Seek(t: nat)
      requires Valid() && CanSeek(t)
      modifies this`frames, this`readPts, this`readyPts, decoder`cursors
      ensures Valid()
      ensures readPts == t && frames == old(SeekQueue(t)) && readyPts == frames[0].pts
      ensures forall i :: 0 <= i < |decoder.streams| ==>
        decoder.cursors[i] == if i == streamId then StopAt(Stream(), decoder.Located(streamId, clip.start + t), t, QueueDepth) else decoder.Located(i, clip.start + t)
      ensures KeepsPts(presenter) ==> QueueAtOrAfterReadPts()
    {
      ghost var s, p := Stream(), decoder.Located(streamId, clip.start + t);
      ghost var q := SeekQueue(t);
      Rewind(t);
      ghost var mid := decoder.cursors;
      assert Cursor() == p && Need() == QueueDepth;
      assert Incoming() == q;
      PreloadNext();
      assert decoder.cursors == mid[streamId := StopAt(s, p, t, QueueDepth)];
      if KeepsPts(presenter) {
        RefillAbove(presenter, s, p, t, QueueDepth);
      }
    }

    /** `show_next`: refills only when the queue is empty, then pops the head
        (returning none if the queue were still empty). */
    method ShowNext() returns (r: Option<Frame>)
      requires Valid() && (frames != [] || CanRefill())
      modifies this`frames, this`readyPts, decoder`cursors
      ensures Valid()
      ensures old(frames) != [] ==>
        && r == Some(old(frames)[0]) && frames == old(frames)[1..]
        && readyPts == old(readyPts) && decoder.cursors == old(decoder.cursors)
      ensures old(frames) == [] ==>
        && r == Some(old(Incoming())[0]) && frames == old(Incoming())[1..]
        && readyPts == r.value.pts
        && decoder.cursors == old(decoder.cursors)[streamId := old(RefillStop())]
      ensures r == Some(old(NextQueue())[0]) && frames == old(NextQueue())[1..]
      ensures KeepsPts(presenter) && old(QueueAtOrAfterReadPts()) ==>
        QueueAtOrAfterReadPts() && r.value.pts >= readPts
      ensures old(frames) != [] && old(QueueSorted()) ==> QueueSorted()
      ensures old(frames) == [] && KeepsPts(presenter) && old(SortedFrom(Cursor())) ==> QueueSorted()
    {
      if frames == [] {
        PreloadNext();
        if KeepsPts(presenter) {
          RefillAbove(presenter, Stream(), old(Cursor()), readPts, QueueDepth);
          if old(SortedFrom(Cursor())) {
            RefillSorted(presenter, Stream(), old(Cursor()), readPts, QueueDepth);
          }
        }
      }
      if frames == [] {
        return None;
      }
      var prepared := frames[0];
      frames := frames[1..];
      return Some(prepared);
    }
  }
}
