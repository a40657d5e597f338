/**
 * The searches of sources/src/timeline.cpp on values: a scene's duration,
 * `TimeLine::scene_from_time` over cumulative durations, and the clip
 * lookup of `PreviewState::peek_video_clip`/`peek_audio_clip`.  Objects are
 * read into these values by module Preview.
 */
module Timeline {
  import opened Wrappers
  import Fun

  /** `AV_TIME_BASE`: ticks per second. */
  const AvTimeBase: nat := 1000000

  /** `time_base_(1. / 24. * AV_TIME_BASE)`: the product, 41666.67, is
      truncated when it is stored in the integral `time_mark`. */
  const FramePeriod: nat := AvTimeBase / 24

  /** Where an object sits on its track: `start()` and `length()`. */
  datatype Span = Span(start: nat, length: nat) {
    function End(): nat { start + length }

    /** The closed interval `start() <= t && t <= start() + length()`. */
    predicate Covers(t: nat) { start <= t <= start + length }
  }

  /** The lambda `get_duration`. */
  function EndOf(sp: Span): int { sp.End() }

  /** The inner `best`: the longest end on one track. */
  function TrackEnd(track: seq<Span>): int {
    Fun.Best(0, track, Fun.Greater, EndOf)
  }

  /** `Scene::duration`: `best` with `greater` over tracks of `best` with
      `greater` over the track's clips of `start() + length()`. */
  function Duration(tracks: seq<seq<Span>>): (d: nat)
  {
    Fun.BestGreaterIsEarliestMax(0, tracks, TrackEnd);
    Fun.Best(0, tracks, Fun.Greater, TrackEnd)
  }

  /** The duration is the largest clip end of the scene: no clip on any track
      ends after it, it is the end of some clip or 0, and a scene without
      clips lasts 0. */
  lemma DurationIsLongestEnd(tracks: seq<seq<Span>>)
    ensures forall i, j :: 0 <= i < |tracks| && 0 <= j < |tracks[i]| ==> tracks[i][j].End() <= Duration(tracks)
    ensures Duration(tracks) == 0 ||
      exists i, j :: 0 <= i < |tracks| && 0 <= j < |tracks[i]| && Duration(tracks) == tracks[i][j].End()
    ensures (forall i :: 0 <= i < |tracks| ==> tracks[i] == []) ==> Duration(tracks) == 0
  {
    var d := Duration(tracks);
    Fun.BestGreaterIsEarliestMax(0, tracks, TrackEnd);
    forall i, j | 0 <= i < |tracks| && 0 <= j < |tracks[i]| ensures tracks[i][j].End() <= d {
      Fun.BestGreaterIsEarliestMax(0, tracks[i], EndOf);
      assert EndOf(tracks[i][j]) <= TrackEnd(tracks[i]) <= d;
    }
    if d != 0 {
      var i :| 0 <= i < |tracks| && d == TrackEnd(tracks[i]);
      Fun.BestGreaterIsEarliestMax(0, tracks[i], EndOf);
      var j :| 0 <= j < |tracks[i]| && TrackEnd(tracks[i]) == EndOf(tracks[i][j]);
    }
  }

  // ---------------------------------------------------------------------
  // TimeLine::scene_from_time
  // ---------------------------------------------------------------------

  /** `D0 + ... + D(n-1)`: where scene `n` starts. */
  function Prefix(durs: seq<nat>, n: nat): nat
    requires n <= |durs|
  {
    if n == 0 then 0 else Prefix(durs, n - 1) + durs[n - 1]
  }

  function Total(durs: seq<nat>): nat {
    Prefix(durs, |durs|)
  }

  lemma {:induction false} PrefixMonotone(durs: seq<nat>, m: nat, n: nat)
    requires m <= n <= |durs|
    ensures Prefix(durs, m) <= Prefix(durs, n)
    decreases n - m
  {
    if m < n {
      PrefixMonotone(durs, m, n - 1);
    }
  }

  /** Scene `i`'s closed interval `[offset, offset + add]`. */
  datatype Interval = Interval(lo: nat, hi: nat) {
    predicate Holds(t: nat) { lo <= t <= hi }
  }

  function Intervals(durs: seq<nat>): (r: seq<Interval>)
    ensures |r| == |durs|
    ensures forall i :: 0 <= i < |durs| ==> r[i] == Interval(Prefix(durs, i), Prefix(durs, i + 1))
  {
    seq(|durs|, i requires 0 <= i < |durs| => Interval(Prefix(durs, i), Prefix(durs, i + 1)))
  }

  /** The scene `find` stops at: the first whose interval holds `t`. */
  function SceneIndex(durs: seq<nat>, t: nat): (r: Option<nat>)
    ensures r.Some? ==> r.value < |durs| && Prefix(durs, r.value) <= t <= Prefix(durs, r.value + 1)
    ensures r.Some? ==> forall j :: 0 <= j < r.value ==> !(Prefix(durs, j) <= t <= Prefix(durs, j + 1))
  {
    Fun.FirstIndex(Intervals(durs), (iv: Interval) => iv.Holds(t))
  }

  /** Some scene's interval holds `t` exactly when there are scenes and `t`
      does not pass the sum of all durations. */
  lemma SceneIndexNone(durs: seq<nat>, t: nat)
    ensures SceneIndex(durs, t).None? <==> |durs| == 0 || t > Total(durs)
  {
    if |durs| > 0 && t <= Total(durs) {
      var i := Covering(durs, t, 0);
      assert Intervals(durs)[i].Holds(t);
    }
    if SceneIndex(durs, t).Some? {
      PrefixMonotone(durs, SceneIndex(durs, t).value + 1, |durs|);
    }
  }

  lemma {:induction false} Covering(durs: seq<nat>, t: nat, k: nat) returns (i: nat)
    requires k < |durs| && Prefix(durs, k) <= t <= Total(durs)
    ensures k <= i < |durs| && Prefix(durs, i) <= t <= Prefix(durs, i + 1)
    decreases |durs| - k
  {
    if t <= Prefix(durs, k + 1) {
      i := k;
    } else {
      i := Covering(durs, t, k + 1);
    }
  }

  /** A time on the boundary between scenes `k - 1` and `k` goes to an
      earlier scene -- to scene `k - 1` itself when that scene is not empty. */
  lemma BoundaryGoesToEarlierScene(durs: seq<nat>, k: nat)
    requires 0 < k <= |durs|
    ensures SceneIndex(durs, Prefix(durs, k)).Some?
    ensures SceneIndex(durs, Prefix(durs, k)).value < k
    ensures durs[k - 1] > 0 ==> SceneIndex(durs, Prefix(durs, k)) == Some(k - 1)
  {
    var t := Prefix(durs, k);
    var r := SceneIndex(durs, t);
    assert Prefix(durs, k - 1) <= t <= Prefix(durs, k);
    assert r.Some? && r.value <= k - 1;
    if durs[k - 1] > 0 && r.value < k - 1 {
      PrefixMonotone(durs, r.value + 1, k - 1);
      assert Prefix(durs, r.value + 1) < t;
    }
  }

  /** The lambda's effect in `scene_from_time`: `offset += add; add =
      duration()` per scene, stopping at the first with `offset <= t <=
      offset + add`. */
  method SceneFromTimeScan(durs: seq<nat>, t: nat) returns (r: Option<nat>)
    ensures r == SceneIndex(durs, t)
  {
    var offset: nat := 0;
    var add: nat := 0;
    var i := 0;
    while i < |durs|
      invariant 0 <= i <= |durs|
      invariant offset + add == Prefix(durs, i)
      invariant forall j :: 0 <= j < i ==> !Intervals(durs)[j].Holds(t)
    {
      offset := offset + add;
      add := durs[i];
      if offset <= t && t <= offset + add {
        assert Intervals(durs)[i].Holds(t);
        return Some(i);
      }
      i := i + 1;
    }
    return None;
  }

  // ---------------------------------------------------------------------
  // peek_video_clip / peek_audio_clip
  // ---------------------------------------------------------------------

  /** The clip `find` returns on a track: the first whose closed interval
      holds `t`, or none. */
  function PeekIndex(track: seq<Span>, t: nat): (r: Option<nat>)
    ensures r.Some? ==> r.value < |track| && track[r.value].Covers(t)
    ensures r.Some? ==> forall j :: 0 <= j < r.value ==> !track[j].Covers(t)
    ensures r.None? <==> forall j :: 0 <= j < |track| ==> !track[j].Covers(t)
  {
    Fun.FirstIndex(track, (sp: Span) => sp.Covers(t))
  }

  /** Every clip is found at every time of its interval, unless an earlier
      clip of the track also holds that time: so where two clips touch, the
      shared boundary goes to the earlier one. */
  lemma PeekFindsCoveringClip(track: seq<Span>, k: nat, t: nat)
    requires k < |track| && track[k].Covers(t)
    ensures PeekIndex(track, t).Some? && PeekIndex(track, t).value <= k
    ensures (forall j :: 0 <= j < k ==> !track[j].Covers(t)) ==> PeekIndex(track, t) == Some(k)
  {
  }

  /** The track 0 of the scene built by `Scene::_create_test`: a clip
      `[0, 2 s]`, and one starting at 3 s that lasts 10 s. */
  function TestVideoTrack(): seq<Span> {
    [Span(0, 2 * AvTimeBase), Span(3 * AvTimeBase, 10 * AvTimeBase)]
  }

  /** On that track, the first clip holds 0..2 s (its end inclusive), times
      strictly between 2 s and 3 s find nothing, and the second clip holds
      3 s..13 s. */
  lemma TestLayoutSelection(t: nat)
    ensures t <= 2 * AvTimeBase ==> PeekIndex(TestVideoTrack(), t) == Some(0)
    ensures 2 * AvTimeBase < t < 3 * AvTimeBase ==> PeekIndex(TestVideoTrack(), t) == None
    ensures 3 * AvTimeBase <= t <= 13 * AvTimeBase ==> PeekIndex(TestVideoTrack(), t) == Some(1)
    ensures t > 13 * AvTimeBase ==> PeekIndex(TestVideoTrack(), t) == None
  {
    assert TestVideoTrack()[0].Covers(t) <==> t <= 2 * AvTimeBase;
    assert TestVideoTrack()[1].Covers(t) <==> 3 * AvTimeBase <= t <= 13 * AvTimeBase;
  }
}
