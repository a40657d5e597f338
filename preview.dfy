/** The timeline tree as the preview sees it (scenes of tracks of media
    objects) and `PreviewState`, the playback cursor: `sync`, `next_video`
    and `next_audio` move `playing_` and re-select `video_clip_` and
    `audio_clip_`. */
module Preview {
  import opened Wrappers
  import opened Proto
  import opened Decoding
  import Timeline
  import opened Clip

  /** `TimeLineTrack`: the track number given at construction and the
      objects laid out on it. */
  datatype Track = Track(index: int, comps: seq<MediaObject>)

  /** `Scene`: its tracks; track 0 carries video, track 1 audio. */
  datatype Scene = Scene(tracks: seq<Track>)

  /** `TimeLine`: its scenes, played one after the other. */
  datatype TimeLine = TimeLine(scenes: seq<Scene>)

  function SceneObjects(scene: Scene): set<MediaObject> {
    set tr, o | tr in scene.tracks && o in tr.comps :: o
  }

  function ObjectsOf(tl: TimeLine): set<MediaObject> {
    set sc, o | sc in tl.scenes && o in SceneObjects(sc) :: o
  }

  function DecodersOf(tl: TimeLine): set<DecodingState> {
    set o | o in ObjectsOf(tl) :: o.decoder
  }

  function ClipsOf(tl: TimeLine): set<MediaClip> {
    set o | o in ObjectsOf(tl) :: o.clip
  }

  /** `start() <= t && t <= start() + length()`, the test both peeks use. */
  predicate Covers(o: MediaObject, t: nat)
    reads o`start, o`length
  {
    o.start <= t <= o.start + o.length
  }

  /** Where each object of `objs` sits on its track: `start()` and
      `length()`. */
  function Positions(objs: set<MediaObject>): (r: map<MediaObject, Timeline.Span>)
    reads objs`start, objs`length
    ensures r.Keys == objs
  {
    map o | o in objs :: Timeline.Span(o.start, o.length)
  }

  lemma PositionsAt(objs: set<MediaObject>)
    ensures forall o :: o in objs ==> Positions(objs)[o] == Timeline.Span(o.start, o.length)
  {
  }

  /** Positions stay as long as no `start()` or `length()` changes. */
  twostate lemma PositionsKept(objs: set<MediaObject>)
    requires forall o :: o in objs ==> o.start == old(o.start) && o.length == old(o.length)
    ensures Positions(objs) == old(Positions(objs))
  {
    assert forall o :: o in objs ==> Positions(objs)[o] == old(Positions(objs))[o];
  }

  /** Every position of `objs` is given by `pos`. */
  ghost predicate Placed(objs: set<MediaObject>, pos: map<MediaObject, Timeline.Span>) {
    objs <= pos.Keys
  }

  /** The layout of one track, read from `pos`. */
  function SpansIn(comps: seq<MediaObject>, pos: map<MediaObject, Timeline.Span>): (r: seq<Timeline.Span>)
    requires forall o :: o in comps ==> o in pos
    ensures |r| == |comps| && forall i :: 0 <= i < |comps| ==> r[i] == pos[comps[i]]
  {
    seq(|comps|, i requires 0 <= i < |comps| => pos[comps[i]])
  }

  /** The layout of a scene, track by track. */
  function SceneSpans(scene: Scene, pos: map<MediaObject, Timeline.Span>): (r: seq<seq<Timeline.Span>>)
    requires Placed(SceneObjects(scene), pos)
    ensures |r| == |scene.tracks|
    ensures forall i :: 0 <= i < |scene.tracks| ==> r[i] == SpansIn(scene.tracks[i].comps, pos)
  {
    seq(|scene.tracks|, i requires 0 <= i < |scene.tracks| =>
      assert forall o :: o in scene.tracks[i].comps ==> o in SceneObjects(scene);
      SpansIn(scene.tracks[i].comps, pos))
  }

  /** `Scene::duration` with the positions `pos`. */
  function SceneDurationIn(scene: Scene, pos: map<MediaObject, Timeline.Span>): nat
    requires Placed(SceneObjects(scene), pos)
  {
    Timeline.Duration(SceneSpans(scene, pos))
  }

  /** No object of the scene ends after its duration. */
  lemma SceneDurationInBounds(scene: Scene, pos: map<MediaObject, Timeline.Span>)
    requires Placed(SceneObjects(scene), pos)
    ensures forall o :: o in SceneObjects(scene) ==> pos[o].End() <= SceneDurationIn(scene, pos)
  {
    var spans := SceneSpans(scene, pos);
    Timeline.DurationIsLongestEnd(spans);
    forall o | o in SceneObjects(scene) ensures pos[o].End() <= Timeline.Duration(spans) {
      var tr :| tr in scene.tracks && o in tr.comps;
      var i :| 0 <= i < |scene.tracks| && scene.tracks[i] == tr;
      var j :| 0 <= j < |tr.comps| && tr.comps[j] == o;
      assert spans[i][j] == pos[o];
    }
  }

  /** The duration is the end of one of the scene's objects, or 0 -- what a
      scene without objects lasts. */
  lemma SceneDurationInAttained(scene: Scene, pos: map<MediaObject, Timeline.Span>)
    requires Placed(SceneObjects(scene), pos)
    ensures SceneDurationIn(scene, pos) == 0 ||
      exists o :: o in SceneObjects(scene) && SceneDurationIn(scene, pos) == pos[o].End()
  {
    var spans := SceneSpans(scene, pos);
    Timeline.DurationIsLongestEnd(spans);
    if Timeline.Duration(spans) != 0 {
      var i, j :| 0 <= i < |spans| && 0 <= j < |spans[i]| && Timeline.Duration(spans) == spans[i][j].End();
      assert spans[i] == SpansIn(scene.tracks[i].comps, pos);
      var tr := scene.tracks[i];
      assert tr in scene.tracks && tr.comps[j] in tr.comps;
      assert tr.comps[j] in SceneObjects(scene);
    }
  }

  /** A scene without objects lasts 0. */
  lemma SceneDurationInEmpty(scene: Scene, pos: map<MediaObject, Timeline.Span>)
    requires Placed(SceneObjects(scene), pos) && SceneObjects(scene) == {}
    ensures SceneDurationIn(scene, pos) == 0
  {
    SceneDurationInAttained(scene, pos);
  }

  /** The duration depends on the positions of the scene's own objects only. */
  lemma SceneDurationInLocal(scene: Scene, p: map<MediaObject, Timeline.Span>, q: map<MediaObject, Timeline.Span>)
    requires Placed(SceneObjects(scene), p) && Placed(SceneObjects(scene), q)
    requires forall o :: o in SceneObjects(scene) ==> p[o] == q[o]
    ensures SceneDurationIn(scene, p) == SceneDurationIn(scene, q)
  {
    forall i | 0 <= i < |scene.tracks| ensures SpansIn(scene.tracks[i].comps, p) == SpansIn(scene.tracks[i].comps, q) {
      assert forall o :: o in scene.tracks[i].comps ==> o in SceneObjects(scene);
    }
    assert SceneSpans(scene, p) == SceneSpans(scene, q);
  }

  /** `Scene::duration`: the largest `start() + length()` of its objects. */
  function SceneDuration(scene: Scene): nat
    reads SceneObjects(scene)`start, SceneObjects(scene)`length
  {
    SceneDurationIn(scene, Positions(SceneObjects(scene)))
  }

  /** No object of the scene ends after its duration. */
  lemma SceneDurationBounds(scene: Scene)
    ensures forall o :: o in SceneObjects(scene) ==> o.start + o.length <= SceneDuration(scene)
  {
    PositionsAt(SceneObjects(scene));
    SceneDurationInBounds(scene, Positions(SceneObjects(scene)));
  }

  /** A scene's duration is the end of one of its objects, or 0 -- which is
      what a scene without objects lasts. */
  lemma SceneDurationAttained(scene: Scene)
    ensures SceneDuration(scene) == 0 || exists o :: o in SceneObjects(scene) && SceneDuration(scene) == o.start + o.length
    ensures SceneObjects(scene) == {} ==> SceneDuration(scene) == 0
  {
    PositionsAt(SceneObjects(scene));
    SceneDurationInAttained(scene, Positions(SceneObjects(scene)));
    if SceneObjects(scene) == {} {
      SceneDurationInEmpty(scene, Positions(SceneObjects(scene)));
    }
  }

  /** The duration of every scene, in order, with the positions `pos`. */
  function DurationsIn(scenes: seq<Scene>, pos: map<MediaObject, Timeline.Span>): (r: seq<nat>)
    requires forall sc :: sc in scenes ==> Placed(SceneObjects(sc), pos)
    ensures |r| == |scenes| && forall k :: 0 <= k < |scenes| ==> r[k] == SceneDurationIn(scenes[k], pos)
  {
    seq(|scenes|, k requires 0 <= k < |scenes| => SceneDurationIn(scenes[k], pos))
  }

  /** The duration of every scene of the timeline, in timeline order. */
  function Durations(tl: TimeLine): (r: seq<nat>)
    reads ObjectsOf(tl)`start, ObjectsOf(tl)`length
    ensures |r| == |tl.scenes|
  {
    DurationsIn(tl.scenes, Positions(ObjectsOf(tl)))
  }

  /** Those are the scenes' own `duration()`s. */
  lemma DurationsAreSceneDurations(tl: TimeLine)
    ensures forall k :: 0 <= k < |tl.scenes| ==> Durations(tl)[k] == SceneDuration(tl.scenes[k])
  {
    var p := Positions(ObjectsOf(tl));
    PositionsAt(ObjectsOf(tl));
    forall k | 0 <= k < |tl.scenes| ensures Durations(tl)[k] == SceneDuration(tl.scenes[k]) {
      var sc := tl.scenes[k];
      PositionsAt(SceneObjects(sc));
      SceneDurationInLocal(sc, p, Positions(SceneObjects(sc)));
    }
  }

  /** `scene` is the first of `scenes` whose cumulative interval, from the
      scene durations `durs`, holds `t`. */
  ghost predicate FirstSceneAt(scenes: seq<Scene>, durs: seq<nat>, t: nat, scene: Scene) {
    && |durs| == |scenes|
    && exists k :: 0 <= k < |scenes| && scenes[k] == scene && Timeline.Intervals(durs)[k].Holds(t)
         && forall j :: 0 <= j < k ==> !Timeline.Intervals(durs)[j].Holds(t)
  }

  /** The scene `scene_from_time` picks from `scenes` with durations `durs`. */
  function SceneAt(scenes: seq<Scene>, durs: seq<nat>, t: nat): (r: Option<Scene>)
    requires |durs| == |scenes|
    ensures r.Some? ==> r.value in scenes
  {
    match Timeline.SceneIndex(durs, t)
    case Some(k) => Some(scenes[k])
    case None => None
  }

  lemma SceneAtIsFirst(scenes: seq<Scene>, durs: seq<nat>, t: nat)
    requires |durs| == |scenes|
    ensures SceneAt(scenes, durs, t).Some? ==> FirstSceneAt(scenes, durs, t, SceneAt(scenes, durs, t).value)
    ensures SceneAt(scenes, durs, t).None? <==> scenes == [] || t > Timeline.Total(durs)
  {
    Timeline.SceneIndexNone(durs, t);
    match Timeline.SceneIndex(durs, t)
    case Some(k) =>
      assert Timeline.Intervals(durs)[k].Holds(t);
    case None =>
  }

  /** `TimeLine::scene_from_time`: the first scene whose cumulative
      interval holds `t`, or none. */
  function SceneFromTime(tl: TimeLine, t: nat): (r: Option<Scene>)
    reads ObjectsOf(tl)`start, ObjectsOf(tl)`length
    ensures r.Some? ==> r.value in tl.scenes
  {
    SceneAt(tl.scenes, Durations(tl), t)
  }

  /** The scene found is the first whose interval, from the cumulative
      scene durations, holds `t`; there is none exactly when the timeline
      has no scenes or `t` lies past its total duration. */
  lemma SceneFromTimeIsFirst(tl: TimeLine, t: nat)
    ensures SceneFromTime(tl, t).Some? ==> FirstSceneAt(tl.scenes, Durations(tl), t, SceneFromTime(tl, t).value)
    ensures SceneFromTime(tl, t).None? <==> tl.scenes == [] || t > Timeline.Total(Durations(tl))
  {
    SceneAtIsFirst(tl.scenes, Durations(tl), t);
  }

  /** `fun::find` over a track's objects with the peeks' predicate, the
      positions read from `pos`: the first object covering `t`, or null. */
  function PeekIn(comps: seq<MediaObject>, pos: map<MediaObject, Timeline.Span>, t: nat): (r: MediaObject?)
    requires forall o :: o in comps ==> o in pos
    ensures r != null ==> r in comps
  {
    if comps == [] then null
    else if pos[comps[0]].Covers(t) then comps[0]
    else PeekIn(comps[1..], pos, t)
  }

  /** The search on objects agrees with the search on their spans,
      `Timeline.PeekIndex`: it returns the object at the index found
      there. */
  lemma {:induction false} PeekInAt(comps: seq<MediaObject>, pos: map<MediaObject, Timeline.Span>, t: nat)
    requires forall o :: o in comps ==> o in pos
    ensures PeekIn(comps, pos, t) == match Timeline.PeekIndex(SpansIn(comps, pos), t)
      case Some(k) => comps[k]
      case None => null
  {
    var s := SpansIn(comps, pos);
    if comps != [] {
      assert SpansIn(comps[1..], pos) == s[1..];
      PeekInAt(comps[1..], pos, t);
    }
  }

  /** The object found covers `t` and no earlier one does; null comes back
      exactly when no object of the track covers `t`. */
  lemma PeekInIsFirst(comps: seq<MediaObject>, pos: map<MediaObject, Timeline.Span>, t: nat)
    requires forall o :: o in comps ==> o in pos
    ensures PeekIn(comps, pos, t) != null ==> pos[PeekIn(comps, pos, t)].Covers(t)
    ensures PeekIn(comps, pos, t) != null ==> exists k :: (0 <= k < |comps| && comps[k] == PeekIn(comps, pos, t)
      && forall j :: 0 <= j < k ==> !pos[comps[j]].Covers(t))
    ensures PeekIn(comps, pos, t) == null <==> forall o :: o in comps ==> !pos[o].Covers(t)
  {
    var spans := SpansIn(comps, pos);
    PeekInAt(comps, pos, t);
    match Timeline.PeekIndex(spans, t)
    case Some(k) =>
      assert spans[k].Covers(t);
    case None =>
      assert forall j :: 0 <= j < |comps| ==> !spans[j].Covers(t);
  }

  /** Every object of a track of a scene of `tl` is an object of `tl`. */
  lemma TrackObjectsIn(tl: TimeLine, sc: Scene, i: nat)
    requires sc in tl.scenes && i < |sc.tracks|
    ensures forall o :: o in sc.tracks[i].comps ==> o in ObjectsOf(tl)
  {
    assert forall o :: o in sc.tracks[i].comps ==> o in SceneObjects(sc);
  }

  /** The object `peek_video_clip` (`i` = 0) or `peek_audio_clip` (`i` = 1)
      finds at `t` on track `i` of a scene of `tl`. */
  function TrackClip(tl: TimeLine, sc: Scene, i: nat, t: nat): (r: MediaObject?)
    reads ObjectsOf(tl)`start, ObjectsOf(tl)`length
    requires sc in tl.scenes && i < |sc.tracks|
    ensures r != null ==> r in sc.tracks[i].comps && r in ObjectsOf(tl)
  {
    TrackObjectsIn(tl, sc, i);
    PeekIn(sc.tracks[i].comps, Positions(ObjectsOf(tl)), t)
  }

  /** The object found covers `t`, `start() <= t <= start() + length()`, and
      no object before it on the track does; null comes back exactly when
      no object of the track covers `t`. */
  lemma TrackClipIsFirst(tl: TimeLine, sc: Scene, i: nat, t: nat)
    requires sc in tl.scenes && i < |sc.tracks|
    ensures TrackClip(tl, sc, i, t) != null ==> Covers(TrackClip(tl, sc, i, t), t)
    ensures TrackClip(tl, sc, i, t) != null ==> exists k :: (0 <= k < |sc.tracks[i].comps| && sc.tracks[i].comps[k] == TrackClip(tl, sc, i, t)
      && forall j :: 0 <= j < k ==> !Covers(sc.tracks[i].comps[j], t))
    ensures TrackClip(tl, sc, i, t) == null <==> forall o :: o in sc.tracks[i].comps ==> !Covers(o, t)
  {
    TrackObjectsIn(tl, sc, i);
    PositionsAt(ObjectsOf(tl));
    PeekInIsFirst(sc.tracks[i].comps, Positions(ObjectsOf(tl)), t);
  }

  /** A possibly null object as a set of objects. */
  function Opt(o: MediaObject?): set<MediaObject> {
    if o == null then {} else {o}
  }

  /** The decode session of a possibly null object, as a set. */
  function SessionOf(o: MediaObject?): set<DecodingState> {
    if o == null then {} else {o.decoder}
  }

  /** The object a sync to `t` in the scene `found` selects on track `i`,
      with the positions `pos`: the clip under `t`, none when there is no
      scene. */
  function PickedIn(tl: TimeLine, found: Option<Scene>, pos: map<MediaObject, Timeline.Span>, i: nat, t: nat): (r: MediaObject?)
    requires found.Some? ==> found.value in tl.scenes && i < |found.value.tracks|
    requires Placed(ObjectsOf(tl), pos)
  {
    if found.None? then null
    else
      TrackObjectsIn(tl, found.value, i);
      PeekIn(found.value.tracks[i].comps, pos, t)
  }

  /** The two objects a sync to `t` in `found` selects, on tracks 0 and 1. */
  function SelectionIn(tl: TimeLine, found: Option<Scene>, pos: map<MediaObject, Timeline.Span>, t: nat): set<MediaObject>
    requires found.Some? ==> found.value in tl.scenes && |found.value.tracks| >= 2
    requires Placed(ObjectsOf(tl), pos)
  {
    Opt(PickedIn(tl, found, pos, 0, t)) + Opt(PickedIn(tl, found, pos, 1, t))
  }

  /** The decode sessions of those two objects. */
  function SelectionSessionsIn(tl: TimeLine, found: Option<Scene>, pos: map<MediaObject, Timeline.Span>, t: nat): set<DecodingState>
    requires found.Some? ==> found.value in tl.scenes && |found.value.tracks| >= 2
    requires Placed(ObjectsOf(tl), pos)
  {
    SessionOf(PickedIn(tl, found, pos, 0, t)) + SessionOf(PickedIn(tl, found, pos, 1, t))
  }

  /** The scene a sync to `t` finds, with the positions `pos`. */
  function SceneAtIn(tl: TimeLine, pos: map<MediaObject, Timeline.Span>, t: nat): (r: Option<Scene>)
    requires Placed(ObjectsOf(tl), pos)
    ensures r.Some? ==> r.value in tl.scenes
  {
    assert forall sc :: sc in tl.scenes ==> SceneObjects(sc) <= ObjectsOf(tl);
    SceneAt(tl.scenes, DurationsIn(tl.scenes, pos), t)
  }

  /** The objects a sync to `t` selects, with the positions `pos`. */
  function SyncSelectionIn(tl: TimeLine, pos: map<MediaObject, Timeline.Span>, t: nat): set<MediaObject>
    requires Placed(ObjectsOf(tl), pos) && forall sc :: sc in tl.scenes ==> |sc.tracks| >= 2
  {
    SelectionIn(tl, SceneAtIn(tl, pos, t), pos, t)
  }

  /** Their decode sessions. */
  function SyncSessionsIn(tl: TimeLine, pos: map<MediaObject, Timeline.Span>, t: nat): set<DecodingState>
    requires Placed(ObjectsOf(tl), pos) && forall sc :: sc in tl.scenes ==> |sc.tracks| >= 2
  {
    SelectionSessionsIn(tl, SceneAtIn(tl, pos, t), pos, t)
  }

  /** With the timeline's own positions, the frame of a sync is what it
      selects: the scene `SceneFromTime` finds and the clips the peeks find
      there on tracks 0 and 1. */
  lemma SyncSelectionIsPeeks(tl: TimeLine, t: nat)
    requires forall sc :: sc in tl.scenes ==> |sc.tracks| >= 2
    ensures SceneAtIn(tl, Positions(ObjectsOf(tl)), t) == SceneFromTime(tl, t)
    ensures var f := SceneFromTime(tl, t);
      SyncSelectionIn(tl, Positions(ObjectsOf(tl)), t) ==
        if f.None? then {} else Opt(TrackClip(tl, f.value, 0, t)) + Opt(TrackClip(tl, f.value, 1, t))
  {
  }

  /** The object names a stream of its session and `seek(0)` can fill
      its queue. */
  ghost predicate Startable(o: MediaObject)
    reads o.clip
  {
    o.streamId < |o.decoder.streams| && o.CanSeek(0)
  }

  /** What the preview needs of the timeline it plays: every scene has the
      video and the audio track that both peeks index, every object names a
      stream of its session, and every object can be restarted with
      `seek(0)`. */
  ghost predicate Playable(tl: TimeLine)
    reads ClipsOf(tl)
  {
    && (forall sc :: sc in tl.scenes ==> |sc.tracks| >= 2)
    && (forall o {:trigger Startable(o)} :: o in ObjectsOf(tl) ==> assert o.clip in ClipsOf(tl); Startable(o))
  }

  /** `PreviewPreset`: the audio volume, a `float` in the source. */
  datatype Preset = Preset(audioVolume: real)

  /** `PreviewPreset()` sets the volume to 1. */
  const DefaultPreset: Preset := Preset(1.0)

  class PreviewState {
    const timeLine: TimeLine
    /** `time_base_`: one frame at 24 frames per second. */
    const timeBase: nat := Timeline.FramePeriod
    var scene: Option<Scene>
    var playing: nat
    var preset: Preset
    var videoClip: MediaObject?
    var audioClip: MediaObject?

    ghost function Objects(): set<MediaObject> { ObjectsOf(timeLine) }
    ghost function Decoders(): set<DecodingState> { DecodersOf(timeLine) }
    ghost function Clips(): set<MediaClip> { ClipsOf(timeLine) }

    /** The playback objects are in working order: the timeline is
        playable and every decode session is consistent. */
    ghost predicate Ready()
      reads Clips(), Decoders()
    {
      && Playable(timeLine)
      && (forall d :: d in Decoders() ==> d.Valid())
    }

    ghost predicate Valid()
      reads this, Clips(), Decoders()
    {
      && Ready()
      && (scene.Some? ==> scene.value in timeLine.scenes)
      && (videoClip != null ==> videoClip in Objects())
      && (audioClip != null ==> audioClip in Objects())
    }

    /** The member initialisers of `PreviewState(project)`: no scene,
        `playing_` 0, `time_base_` one frame at 24 fps, the default preset
        and no clips, then `sync(0)`. Only the clips it selects and their
        sessions change; no object moves. */
    constructor (timeLine: TimeLine)
      requires Playable(timeLine) && forall d :: d in DecodersOf(timeLine) ==> d.Valid()
      modifies SyncSelectionIn(timeLine, Positions(ObjectsOf(timeLine)), 0)`frames
      modifies SyncSelectionIn(timeLine, Positions(ObjectsOf(timeLine)), 0)`readPts
      modifies SyncSelectionIn(timeLine, Positions(ObjectsOf(timeLine)), 0)`readyPts
      modifies SyncSessionsIn(timeLine, Positions(ObjectsOf(timeLine)), 0)`cursors
      ensures Valid() && this.timeLine == timeLine
      ensures preset == DefaultPreset
      ensures scene == old(SceneFromTime(timeLine, 0))
      ensures scene.None? ==> playing == 0 && videoClip == null && audioClip == null
      ensures var sc := scene; sc.Some? ==>
        && playing == 0
        && videoClip == old(TrackClip(timeLine, sc.value, 0, 0))
        && audioClip == old(TrackClip(timeLine, sc.value, 1, 0))
      ensures scene.Some? && videoClip != null ==> videoClip.SeekedTo(0)
      ensures scene.Some? && audioClip != null ==> audioClip.SeekedTo(0)
    {
      this.timeLine := timeLine;
      scene := None;
      playing := 0;
      preset := DefaultPreset;
      videoClip, audioClip := null, null;
      new;
      PositionsKept(ObjectsOf(timeLine));
      Sync(0);
    }

    /** `peek_video_clip(t)`: first match on track 0 of the current scene. */
    function PeekVideoClip(t: nat): (r: MediaObject?)
      reads this`scene, ObjectsOf(timeLine)`start, ObjectsOf(timeLine)`length
      requires scene.Some? && scene.value in timeLine.scenes && |scene.value.tracks| >= 1
      ensures r != null ==> r in Objects()
    {
      TrackClip(timeLine, scene.value, 0, t)
    }

    /** `peek_audio_clip(t)`: first match on track 1 of the current scene. */
    function PeekAudioClip(t: nat): (r: MediaObject?)
      reads this`scene, ObjectsOf(timeLine)`start, ObjectsOf(timeLine)`length
      requires scene.Some? && scene.value in timeLine.scenes && |scene.value.tracks| >= 2
      ensures r != null ==> r in Objects()
    {
      TrackClip(timeLine, scene.value, 1, t)
    }

    /** `if (clip.get()) clip->seek(0)`, as `sync` and both `next_*`
        methods restart a clip they have just selected. */
    method Restart(o: MediaObject?)
      requires Ready() && (o != null ==> o in Objects())
      modifies Opt(o)`frames, Opt(o)`readPts, Opt(o)`readyPts, SessionOf(o)`cursors
      ensures Ready()
      ensures o != null ==> o.SeekedTo(0) && o.readyPts == o.frames[0].pts
      ensures Positions(Objects()) == old(Positions(Objects()))
    {
      if o != null {
        assert o.decoder in Decoders();
        assert Startable(o);
        ghost var q := o.SeekQueue(0);
        o.Seek(0);
        assert o.SeekQueue(0) == q;
        PositionsKept(Objects());
      }
    }

    /** `video_clip_ = clip`, then `video_clip_->seek(0)` when it is not
        null. */
    method UseVideo(o: MediaObject?)
      requires Valid() && (o != null ==> o in Objects())
      modifies this`videoClip, Opt(o)`frames, Opt(o)`readPts, Opt(o)`readyPts, SessionOf(o)`cursors
      ensures Valid() && videoClip == o
      ensures o != null ==> o.SeekedTo(0) && o.readyPts == o.frames[0].pts
      ensures Positions(Objects()) == old(Positions(Objects()))
    {
      videoClip := o;
      Restart(o);
    }

    /** `audio_clip_ = clip`, then `audio_clip_->seek(0)` when it is not
        null. */
    method UseAudio(o: MediaObject?)
      requires Valid() && (o != null ==> o in Objects())
      modifies this`audioClip, Opt(o)`frames, Opt(o)`readPts, Opt(o)`readyPts, SessionOf(o)`cursors
      ensures Valid() && audioClip == o
      ensures o != null ==> o.SeekedTo(0) && o.readyPts == o.frames[0].pts
      ensures videoClip != null && videoClip != o && old(videoClip.SeekedTo(0)) ==> videoClip.SeekedTo(0)
      ensures Positions(Objects()) == old(Positions(Objects()))
    {
      audioClip := o;
      Restart(o);
    }

    /** `video_clip_ = v`, `video_clip_->seek(0)`, then the same for the
        audio clip `a`: both end up restarted, since restarting `a` leaves
        a different `v` as its seek left it. */
    method UseBoth(v: MediaObject?, a: MediaObject?)
      requires Valid() && (v != null ==> v in Objects()) && (a != null ==> a in Objects())
      modifies this`videoClip, this`audioClip
      modifies Opt(v)`frames, Opt(v)`readPts, Opt(v)`readyPts, SessionOf(v)`cursors
      modifies Opt(a)`frames, Opt(a)`readPts, Opt(a)`readyPts, SessionOf(a)`cursors
      ensures Valid() && videoClip == v && audioClip == a
      ensures v != null ==> v.SeekedTo(0)
      ensures a != null ==> a.SeekedTo(0)
      ensures Positions(Objects()) == old(Positions(Objects()))
    {
      UseVideo(v);
      UseAudio(a);
    }

    /** The tail of `sync` once a scene is found: `scene_ = found`,
        `playing_ = t`, and the clips under `t` on tracks 0 and 1 selected
        and restarted. Both peeks are taken before either seek: a seek
        touches queues and sessions, never `start()` or `length()`, so the
        audio peek finds what it finds after the video seek in the
        source. */
    method EnterScene(found: Scene, t: nat)
      requires Valid() && found in timeLine.scenes
      modifies this`scene, this`playing, this`videoClip, this`audioClip
      modifies SelectionIn(timeLine, Some(found), Positions(ObjectsOf(timeLine)), t)`frames
      modifies SelectionIn(timeLine, Some(found), Positions(ObjectsOf(timeLine)), t)`readPts
      modifies SelectionIn(timeLine, Some(found), Positions(ObjectsOf(timeLine)), t)`readyPts
      modifies SelectionSessionsIn(timeLine, Some(found), Positions(ObjectsOf(timeLine)), t)`cursors
      ensures Valid() && scene == Some(found) && playing == t
      ensures videoClip == old(TrackClip(timeLine, found, 0, t))
      ensures audioClip == old(TrackClip(timeLine, found, 1, t))
      ensures videoClip != null ==> videoClip.SeekedTo(0)
      ensures audioClip != null ==> audioClip.SeekedTo(0)
      ensures Positions(Objects()) == old(Positions(Objects()))
    {
      var v := TrackClip(timeLine, found, 0, t);
      var a := TrackClip(timeLine, found, 1, t);
      scene, playing := Some(found), t;
      UseBoth(v, a);
    }

    /** `scene_ = found`; when it is a scene, the rest of `sync`. */
    method SetScene(found: Option<Scene>, t: nat)
      requires Valid() && (found.Some? ==> found.value in timeLine.scenes)
      modifies this`scene, this`playing, this`videoClip, this`audioClip
      modifies SelectionIn(timeLine, found, Positions(ObjectsOf(timeLine)), t)`frames
      modifies SelectionIn(timeLine, found, Positions(ObjectsOf(timeLine)), t)`readPts
      modifies SelectionIn(timeLine, found, Positions(ObjectsOf(timeLine)), t)`readyPts
      modifies SelectionSessionsIn(timeLine, found, Positions(ObjectsOf(timeLine)), t)`cursors
      ensures Valid() && scene == found
      ensures found.None? ==> playing == old(playing) && videoClip == old(videoClip) && audioClip == old(audioClip)
      ensures found.None? ==> unchanged(Objects()) && unchanged(Decoders())
      ensures found.Some? ==>
        && playing == t
        && videoClip == old(TrackClip(timeLine, found.value, 0, t))
        && audioClip == old(TrackClip(timeLine, found.value, 1, t))
      ensures found.Some? && videoClip != null ==> videoClip.SeekedTo(0)
      ensures found.Some? && audioClip != null ==> audioClip.SeekedTo(0)
      ensures Positions(Objects()) == old(Positions(Objects()))
    {
      if found.Some? {
        EnterScene(found.value, t);
      } else {
        scene := found;
      }
    }

    /** `sync(t)`: the scene holding `t` becomes the current one (none when
        no scene holds it, and then nothing else changes); if there is one,
        `playing_` jumps to `t` and the objects under `t` on tracks 0 and 1
        become the video and audio clips, each restarted with `seek(0)`. */
    method Sync(t: nat)
      requires Valid()
      modifies this`scene, this`playing, this`videoClip, this`audioClip
      modifies SyncSelectionIn(timeLine, Positions(ObjectsOf(timeLine)), t)`frames
      modifies SyncSelectionIn(timeLine, Positions(ObjectsOf(timeLine)), t)`readPts
      modifies SyncSelectionIn(timeLine, Positions(ObjectsOf(timeLine)), t)`readyPts
      modifies SyncSessionsIn(timeLine, Positions(ObjectsOf(timeLine)), t)`cursors
      ensures Valid()
      ensures scene == old(SceneFromTime(timeLine, t))
      ensures scene.None? ==> playing == old(playing) && videoClip == old(videoClip) && audioClip == old(audioClip)
      ensures scene.None? ==> unchanged(Objects()) && unchanged(Decoders())
      ensures var sc := scene; sc.Some? ==>
        && playing == t
        && videoClip == old(TrackClip(timeLine, sc.value, 0, t))
        && audioClip == old(TrackClip(timeLine, sc.value, 1, t))
      ensures scene.Some? && videoClip != null ==> videoClip.SeekedTo(0)
      ensures scene.Some? && audioClip != null ==> audioClip.SeekedTo(0)
      ensures Positions(Objects()) == old(Positions(Objects()))
    {
      var found := SceneFromTime(timeLine, t);
      SetScene(found, t);
    }

    /** Calling `sync(t)` twice selects what one call selects: a sync moves
        queues and sessions, never `start()` or `length()`, so the second
        search finds the same scene and the same clips. */
    method SyncTwice(t: nat)
      requires Valid()
      modifies this`scene, this`playing, this`videoClip, this`audioClip
      modifies SyncSelectionIn(timeLine, Positions(ObjectsOf(timeLine)), t)`frames
      modifies SyncSelectionIn(timeLine, Positions(ObjectsOf(timeLine)), t)`readPts
      modifies SyncSelectionIn(timeLine, Positions(ObjectsOf(timeLine)), t)`readyPts
      modifies SyncSessionsIn(timeLine, Positions(ObjectsOf(timeLine)), t)`cursors
      ensures Valid()
      ensures scene == old(SceneFromTime(timeLine, t))
      ensures scene.None? ==> playing == old(playing) && videoClip == old(videoClip) && audioClip == old(audioClip)
      ensures var sc := scene; sc.Some? ==>
        && playing == t
        && videoClip == old(TrackClip(timeLine, sc.value, 0, t))
        && audioClip == old(TrackClip(timeLine, sc.value, 1, t))
      ensures scene.Some? && videoClip != null ==> videoClip.SeekedTo(0)
      ensures scene.Some? && audioClip != null ==> audioClip.SeekedTo(0)
    {
      Sync(t);
      Sync(t);
    }

    /** What `show_next` needs of the clip `next_video` or `next_audio`
        keeps showing: a queued frame, or enough left to refill. */
    ghost predicate CanShow(o: MediaObject?)
      reads Clips(), Decoders(), Objects()
      requires Ready()
    {
      o != null && o in Objects() ==>
        assert o.decoder in Decoders() && Startable(o);
        o.frames != [] || o.CanRefill()
    }

    /** `clip->set_playing(playing_ - clip->start())` followed by
        `clip->show_next()`, for a clip under `playing_`. */
    method Present(o: MediaObject) returns (r: Option<Frame>)
      requires Ready() && o in Objects() && o.start <= playing && CanShow(o)
      modifies o`playing, o`frames, o`readyPts, o.decoder`cursors
      ensures Ready() && o.Valid()
      ensures o.playing == playing - o.start
      ensures old(o.Valid()) && r == Some(old(o.NextQueue())[0]) && o.frames == old(o.NextQueue())[1..]
      ensures KeepsPts(o.presenter) && old(o.QueueAtOrAfterReadPts()) ==>
        o.QueueAtOrAfterReadPts() && r.value.pts >= o.readPts
    {
      assert o.decoder in Decoders() && Startable(o);
      o.SetPlaying(playing - o.start);
      r := o.ShowNext();
    }

    /** What `next_video` needs: when the clip under the next frame time is
        the one already selected, it has a frame to show. */
    ghost predicate NextVideoReady()
      reads this, Clips(), Decoders(), Objects()
      requires Valid() && scene.Some?
    {
      var c := PeekVideoClip(playing + timeBase);
      c == videoClip ==> CanShow(c)
    }

    /** The part of `next_video` after the peek of the clip under the new
        time `now`: `playing_` becomes `now`, a clip other than
        `video_clip_` becomes the video clip and is restarted, and the video
        clip, if any, shows its next frame. */
    method ShowVideo(clip: MediaObject?, now: nat) returns (r: Option<Frame>)
      requires Valid() && (clip != null ==> clip in Objects() && clip.start <= now)
      requires clip == videoClip ==> CanShow(clip)
      modifies this`playing, this`videoClip
      modifies Opt(clip)`frames, Opt(clip)`readPts, Opt(clip)`readyPts, Opt(clip)`playing,
        SessionOf(clip)`cursors
      ensures Valid() && playing == now && videoClip == clip
      ensures r.None? <==> clip == null
      ensures clip != null ==> clip.playing == now - clip.start
      ensures clip != null && clip != old(videoClip) ==>
        clip.streamId < |clip.decoder.streams| && clip.readPts == 0 && clip.CanSeek(0) &&
        r == Some(clip.SeekQueue(0)[0]) && clip.frames == clip.SeekQueue(0)[1..]
      ensures clip != null && clip == old(videoClip) ==>
        old(clip.Valid() && (clip.frames != [] || clip.CanRefill())) &&
        r == Some(old(clip.NextQueue())[0]) && clip.frames == old(clip.NextQueue())[1..]
    {
      playing := now;
      if clip != videoClip {
        UseVideo(clip);
      }
      if clip != null {
        r := Present(clip);
      } else {
        r := None;
      }
    }

    /** `next_video()`: advances `playing_` by one frame; when the clip
        under the new time differs from `video_clip_` it becomes the video
        clip and is restarted; the video clip, if any, shows its next
        frame. Nothing is shown, and none is returned, when no clip of
        track 0 covers the new time. The peek is written before the advance,
        at the time the advance produces. */
    method NextVideo() returns (r: Option<Frame>)
      requires Valid() && scene.Some? && NextVideoReady()
      modifies this`playing, this`videoClip
      modifies Opt(PeekVideoClip(playing + timeBase))`frames, Opt(PeekVideoClip(playing + timeBase))`readPts
      modifies Opt(PeekVideoClip(playing + timeBase))`readyPts, Opt(PeekVideoClip(playing + timeBase))`playing
      modifies SessionOf(PeekVideoClip(playing + timeBase))`cursors
      ensures Valid() && scene == old(scene) && audioClip == old(audioClip)
      ensures playing == old(playing) + timeBase
      ensures videoClip == old(PeekVideoClip(playing + timeBase))
      ensures r.None? <==> videoClip == null
      ensures var v := videoClip; v != null ==> v.playing == playing - v.start
      ensures var v := videoClip; v != null && v != old(videoClip) ==>
        v.streamId < |v.decoder.streams| && v.readPts == 0 && v.CanSeek(0) &&
        r == Some(v.SeekQueue(0)[0]) && v.frames == v.SeekQueue(0)[1..]
      ensures var v := videoClip; v != null && v == old(videoClip) ==>
        old(v.Valid() && (v.frames != [] || v.CanRefill())) &&
        r == Some(old(v.NextQueue())[0]) && v.frames == old(v.NextQueue())[1..]
    {
      var clip := PeekVideoClip(playing + timeBase);
      TrackClipIsFirst(timeLine, scene.value, 0, playing + timeBase);
      r := ShowVideo(clip, playing + timeBase);
    }

    /** The part of `next_audio` after the peek, as written: a `clip`
        other than `audio_clip_` is assigned to `video_clip_` and the stale
        `audio_clip_` is the one restarted; the frame then comes from
        `clip`, which is dereferenced whenever `audio_clip_` is not null. */
    method MisuseAudio(clip: MediaObject?) returns (r: Option<Frame>)
      requires Valid() && (clip != null ==> clip in Objects())
      requires audioClip != null ==>
        && clip != null && clip.start <= playing
        && (clip == audioClip || clip.decoder != audioClip.decoder)
        && CanShow(clip)
      modifies this`videoClip
      modifies Opt(clip)`frames, Opt(clip)`readyPts, Opt(clip)`playing, SessionOf(clip)`cursors
      modifies Opt(audioClip)`frames, Opt(audioClip)`readPts, Opt(audioClip)`readyPts,
        SessionOf(audioClip)`cursors
      ensures Valid() && audioClip == old(audioClip)
      ensures clip != audioClip ==> videoClip == clip
      ensures clip == audioClip ==> videoClip == old(videoClip)
      ensures clip != audioClip && audioClip != null ==> audioClip.SeekedTo(0)
      ensures r.None? <==> audioClip == null
      ensures audioClip != null ==>
        old(clip.Valid() && (clip.frames != [] || clip.CanRefill())) &&
        r == Some(old(clip.NextQueue())[0]) && clip.frames == old(clip.NextQueue())[1..]
    {
      if clip != audioClip {
        videoClip := clip;
        Restart(audioClip);
      }
      if audioClip != null {
        r := Present(clip);
      } else {
        r := None;
      }
    }

    /** `next_audio()` as written: the clip under `playing_` on track 1 is
        compared with `audio_clip_`, but when they differ it is assigned to
        `video_clip_`, and the stale `audio_clip_` is the one restarted; the
        frame then comes from the peeked clip, which the source dereferences
        whenever `audio_clip_` is not null. */
    method NextAudio() returns (r: Option<Frame>)
      requires Valid() && scene.Some?
      requires var c := PeekAudioClip(playing); audioClip != null ==>
        && c != null && c.start <= playing
        && (c == audioClip || c.decoder != audioClip.decoder)
        && CanShow(c)
      modifies this`videoClip
      modifies Opt(PeekAudioClip(playing))`frames, Opt(PeekAudioClip(playing))`readyPts
      modifies Opt(PeekAudioClip(playing))`playing, SessionOf(PeekAudioClip(playing))`cursors
      modifies Opt(audioClip)`frames, Opt(audioClip)`readPts, Opt(audioClip)`readyPts,
        SessionOf(audioClip)`cursors
      ensures Valid() && scene == old(scene) && playing == old(playing)
      ensures audioClip == old(audioClip)
      ensures var c := old(PeekAudioClip(playing));
        && (c != audioClip ==> videoClip == c)
        && (c == audioClip ==> videoClip == old(videoClip))
        && (c != audioClip && audioClip != null ==> audioClip.SeekedTo(0))
        && (r.None? <==> audioClip == null)
        && (audioClip != null ==>
              old(c.Valid() && (c.frames != [] || c.CanRefill())) &&
              r == Some(old(c.NextQueue())[0]) && c.frames == old(c.NextQueue())[1..])
    {
      var clip := PeekAudioClip(playing);
      r := MisuseAudio(clip);
    }

    /** What the corrected `next_audio` needs: when the clip under
        `playing_` is the audio clip already selected, it has a frame to
        show. */
    ghost predicate NextAudioReady()
      reads this, Clips(), Decoders(), Objects()
      requires Valid() && scene.Some?
    {
      var c := PeekAudioClip(playing);
      c == audioClip ==> CanShow(c)
    }

    /** The part of `next_audio` after the peek, as evidently intended:
        a clip other than `audio_clip_` becomes the audio clip and is
        restarted, and the audio clip, if any, shows its next frame. */
    method ShowAudio(clip: MediaObject?) returns (r: Option<Frame>)
      requires Valid() && (clip != null ==> clip in Objects() && clip.start <= playing)
      requires clip == audioClip ==> CanShow(clip)
      modifies this`audioClip
      modifies Opt(clip)`frames, Opt(clip)`readPts, Opt(clip)`readyPts, Opt(clip)`playing,
        SessionOf(clip)`cursors
      ensures Valid() && audioClip == clip
      ensures r.None? <==> clip == null
      ensures clip != null ==> clip.playing == playing - clip.start
      ensures clip != null && clip != old(audioClip) ==>
        clip.streamId < |clip.decoder.streams| && clip.readPts == 0 && clip.CanSeek(0) &&
        r == Some(clip.SeekQueue(0)[0]) && clip.frames == clip.SeekQueue(0)[1..]
      ensures clip != null && clip == old(audioClip) ==>
        old(clip.Valid() && (clip.frames != [] || clip.CanRefill())) &&
        r == Some(old(clip.NextQueue())[0]) && clip.frames == old(clip.NextQueue())[1..]
    {
      if clip != audioClip {
        UseAudio(clip);
      }
      if clip != null {
        r := Present(clip);
      } else {
        r := None;
      }
    }

    /** `next_audio()` as evidently intended, the mirror of `next_video`
        without the advance: a different clip under `playing_` becomes
        `audio_clip_` and is restarted, and the audio clip shows its next
        frame. */
    method NextAudioCorrected() returns (r: Option<Frame>)
      requires Valid() && scene.Some? && NextAudioReady()
      modifies this`audioClip
      modifies Opt(PeekAudioClip(playing))`frames, Opt(PeekAudioClip(playing))`readPts
      modifies Opt(PeekAudioClip(playing))`readyPts, Opt(PeekAudioClip(playing))`playing
      modifies SessionOf(PeekAudioClip(playing))`cursors
      ensures Valid() && scene == old(scene) && playing == old(playing) && videoClip == old(videoClip)
      ensures audioClip == old(PeekAudioClip(playing))
      ensures r.None? <==> audioClip == null
      ensures var a := audioClip; a != null ==> a.playing == playing - a.start
      ensures var a := audioClip; a != null && a != old(audioClip) ==>
        a.streamId < |a.decoder.streams| && a.readPts == 0 && a.CanSeek(0) &&
        r == Some(a.SeekQueue(0)[0]) && a.frames == a.SeekQueue(0)[1..]
      ensures var a := audioClip; a != null && a == old(audioClip) ==>
        old(a.Valid() && (a.frames != [] || a.CanRefill())) &&
        r == Some(old(a.NextQueue())[0]) && a.frames == old(a.NextQueue())[1..]
    {
      var clip := PeekAudioClip(playing);
      TrackClipIsFirst(timeLine, scene.value, 1, playing);
      r := ShowAudio(clip);
    }

    /** `update_preset(preset)`. */
    method UpdatePreset(preset: Preset)
      modifies this`preset
      ensures this.preset == preset
    {
      this.preset := preset;
    }

    /** `time_base()`: the frame period, which is 1/24 s rounded down to
        whole ticks. */
    method TimeBase() returns (r: nat)
      ensures r == timeBase
      ensures r * 24 <= Timeline.AvTimeBase < (r + 1) * 24
    {
      r := timeBase;
    }
  }
}
