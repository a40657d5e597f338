# The playback core of the `vd` video editor, in Dafny

`vd` is a small Qt/SDL/FFmpeg video editor. This project models the part of
it that decides what plays: the timeline tree, the playback cursor and the
per-clip frame queues.

- A `TimeLine` has `Scene`s, a `Scene` has `TimeLineTrack`s, and a track has
  `MediaObject`s, each placed by a `start()` and a `length()` in
  `AV_TIME_BASE` ticks.
- `Scene::duration` is the largest clip end.
- `TimeLine::scene_from_time` finds the first scene whose cumulative
  interval holds a time.
- `PreviewState` is the playback cursor. `sync`, `next_video` and
  `next_audio` move `playing_` and re-select the video clip (track 0) and
  the audio clip (track 1).
- A clip that becomes selected is restarted with `seek(0)`.

Each `MediaObject` keeps a queue of up to 30 prepared frames. The frames
come from a decode session shared by every object of the same file, through
a presenter. The `MediaDecoder` registry memoizes one session per filename.
The rest is bookkeeping:
- the small `vd::fun` helpers;
- the eight-byte name `Id8`;
- the two SDL presenters;
- the drift-correction skeleton of `synchronize_audio`;
- the 16384-byte output buffer that `SdlAudio::write` fills and SDL's
  callback drains.

Modules, one file each:
- `Wrappers`: `Option`/`Result`.
- `Fun`: `fun.hpp`.
- `Proto`: frames and `Id8`.
- `Timeline`: the pure searches on spans and durations.
- `Decoding`: sessions, the registry, `Media`.
- `Clip`: `MediaClip`, and `MediaObject` with its queue.
- `Preview`: the timeline tree and `PreviewState`.
- `Sdl`: presenters, `synchronize_audio`, `SdlAudio`.

Objects whose fields the source updates are classes:
- `MediaClip`, `MediaObject`, `DecodingState`, `MediaDecoder` and `Media`;
- `PreviewState`, `SdlAudio`, and `AudioDiff` (the globals of
  `synchronize_audio`).

Tracks, scenes, the timeline and frames are values. Every loop of the source
is a method with invariants, proved against a pure function:
- `each`, `transform`, `best` and `find`;
- the scan of `scene_from_time`;
- the read loop of `preload_next`;
- the walk of `Id8::to_str`.

`scene_from_time` runs the local `find` template of sources/src/timeline.cpp (lines 675-685). It is the same first-match loop as `fun::find`, with a cast of the shared handle to a raw one, so both are modelled by `Fun.FirstIndex`.

The `PreviewState` methods that select and seek clips change only the selected clips and their sessions. Their `modifies` clauses name those objects through pure functions of the timeline and the objects' spans (`Preview.SyncSelectionIn`, `Preview.SelectionIn`), so every other object and session keeps its queue and cursors. They also ensure that no `start()` or `length()` moves.

Where the code and its comments disagree, the model follows the code:
- `sync` assigns `scene_` even when no scene holds `t`, so the current
  scene becomes null.
- `ready_pts_` is documented as the head frame's pts, but only
  `preload_next` sets it that way. `show_next` never updates it, so once
  the head is popped it names a frame already shown.
- The comment on `read_pts_` (the pts of the last frame read) is not
  maintained: only `seek` sets it.

## Model

| member | source | states |
|---|---|---|
| Fun.EachLoop | sources/include/vd/fun.hpp:13-17 | the loop of `for_each` returns the left fold `Each` of the functor over the elements in order |
| Fun.EachVisitsFrontFirst | sources/include/vd/fun.hpp:13-17 | the first element is visited first, on the initial state |
| Fun.EachAppend | sources/include/vd/fun.hpp:13-17 | visiting `a + b` visits all of `a` and then all of `b` |
| Fun.TransformIsMap | sources/include/vd/fun.hpp:19-38 | `transform` has the input's length and `res[i] == transf(cnt[i])` |
| Fun.TransformLoop | sources/include/vd/fun.hpp:19-28 | the push-back loop yields the same length and `res[i] == transf(cnt[i])` |
| Fun.BestLoop | sources/include/vd/fun.hpp:40-51 | the loop returns `Best`, and `def` for an empty container |
| Fun.BestIsCandidate | sources/include/vd/fun.hpp:40-51 | the result is `def` or the `prop` of some element |
| Fun.BestNoneBetter | sources/include/vd/fun.hpp:40-51 | for a strict order, neither `def` nor any element's `prop` compares better than the result |
| Fun.BestGreaterIsEarliestMax | sources/include/vd/fun.hpp:44-49 | with `greater`, the result is the maximum of `def` and every `prop`, and when it is not `def` it is the earliest maximal element |
| Fun.FirstIndex | sources/include/vd/fun.hpp:53-65 | the index found satisfies `f` and no earlier one does; none exactly when no element satisfies `f` |
| Fun.Find | sources/include/vd/fun.hpp:53-65 | `find` returns the first element satisfying `f` when one exists, else `def` |
| Fun.FindLoop | sources/include/vd/fun.hpp:53-65 | the early-return loop returns what `Find` specifies |
| Proto.NewFrame | sources/include/vd/proto.hpp:38 | a new `MovieResource` has pts 0 |
| Proto.SetPts | sources/include/vd/proto.hpp:42-43 | `set_pts(p)` makes the pts `p` and keeps the kind |
| Proto.Num | sources/include/vd/proto.hpp:53-57 | `num_` is the little-endian reading of the eight name bytes, below 2^64 |
| Proto.StrLen | sources/src/proto.cpp:19 | `strlen` is the position of the first zero byte |
| Proto.NewId8 | sources/src/proto.cpp:16-23 | construction fails exactly when `strlen(name)` is 0 or above 8; otherwise the name bytes are copied and the remaining bytes are 0 |
| Proto.ToStr | sources/src/proto.cpp:36-42 | `to_str` strips the trailing zero bytes and returns a non-empty prefix of the name that ends in a non-zero byte |
| Proto.ToStrRoundTrip | sources/src/proto.cpp:16-42 | for every accepted name, `to_str` gives back the name the constructor was given |
| Proto.Copy | sources/src/proto.cpp:25-34 | a copy compares `==` to its source |
| Proto.LittleEndianInjective | sources/include/vd/proto.hpp:53-57 | two byte strings of the same length with the same `num_` are equal |
| Proto.EqIsSameName | sources/src/proto.cpp:44-47 | `==` holds exactly when all eight name bytes are equal |
| Proto.LessIsStrictTotalOrder | sources/src/proto.cpp:49-52 | `<` is irreflexive, transitive and asymmetric, and total on different names |
| Timeline.DurationIsLongestEnd | sources/src/timeline.cpp:772-785 | a duration is at least every clip's `start + length`, equals one of them or 0, and is 0 when no track has a clip |
| Timeline.PrefixMonotone | sources/src/timeline.cpp:712-716 | the cumulative scene offsets never decrease |
| Timeline.Intervals | sources/src/timeline.cpp:712-716 | scene `i` holds the closed interval from the sum of the durations before it to that sum plus its own |
| Timeline.SceneIndex | sources/src/timeline.cpp:707-719 | the scene found has an interval holding `t`, and no earlier scene's interval does |
| Timeline.SceneIndexNone | sources/src/timeline.cpp:707-719 | no scene is found exactly when there are none or `t` is past the sum of all durations |
| Timeline.BoundaryGoesToEarlierScene | sources/src/timeline.cpp:712-716 | a time on the boundary between scenes goes to an earlier scene, and to the scene just before when that one is not empty |
| Timeline.SceneFromTimeScan | sources/src/timeline.cpp:707-719 | the offset/add accumulator scan returns `SceneIndex` |
| Timeline.PeekIndex | sources/src/timeline.cpp:132-148 | the clip found covers `t` (closed interval) and no earlier clip does; none exactly when no clip covers `t` |
| Timeline.PeekFindsCoveringClip | sources/src/timeline.cpp:132-148 | every covering clip is found unless an earlier one also covers `t` |
| Timeline.TestLayoutSelection | sources/src/timeline.cpp:744-764 | on the test video track, 0..2 s finds the first clip, the times strictly between 2 s and 3 s find nothing, 3 s..13 s find the second clip, and later times find nothing |
| Decoding.DecodingState.constructor | sources/include/vd/proto.hpp:112-127 | a session over fixed per-stream frame sequences starts with every cursor at the start |
| Decoding.DecodingState.Located | sources/include/vd/proto.hpp:117 | a seek lands every stream within its frames |
| Decoding.DecodingState.PeekFrame | sources/include/vd/proto.hpp:115 | `peek_frame` returns the stream's next frame and advances only that stream, or none at the end |
| Decoding.DecodingState.Seek | sources/include/vd/proto.hpp:117 | `seek(t)` repositions every stream to where the seek rule puts it |
| Decoding.MediaDecoder.constructor | sources/src/timeline.cpp:19-23 | a new registry is empty |
| Decoding.MediaDecoder.Decode | sources/src/timeline.cpp:30-41 | a known filename returns the cached session and leaves the map alone; an unknown one inserts the new session and returns it; other entries never change |
| Decoding.Media.constructor | sources/src/proto.cpp:262-265 | `Media(filename)` stores the filename unchanged and has no session yet |
| Decoding.Media.Decoder | sources/src/proto.cpp:267-273 | the first call asks the registry, and later calls return the cached handle without touching the registry |
| Decoding.SharedSession | sources/src/timeline.cpp:30-41 | two lookups of the same filename return the same session |
| Clip.AcceptedAbove | sources/src/timeline.cpp:198-203 | no frame below `read_pts_` is ever kept, and every kept frame came from the decoder |
| Clip.PrepareAll | sources/src/timeline.cpp:209-210 | one presenter result per kept frame, in order |
| Clip.StopAtKeepsNeed | sources/src/timeline.cpp:189-212 | the read loop stops right after the frame that fills the queue, having kept exactly the missing number |
| Clip.QueuedAbove | sources/src/timeline.cpp:198-210 | with a pts-keeping presenter, every prepared frame is at or after `read_pts_` |
| Clip.Refill | sources/src/timeline.cpp:186-212 | a refill appends exactly the missing number of frames |
| Clip.RefillAbove | sources/src/timeline.cpp:186-212 | with a pts-keeping presenter, a refill holds only frames at or after `read_pts_` |
| Clip.AcceptedSorted | sources/src/timeline.cpp:189-210 | discarding the frames below `read_pts_` keeps a pts-ordered stream in pts order |
| Clip.RefillSorted | sources/src/timeline.cpp:186-212 | with a pts-keeping presenter, a refill from a pts-ordered rest of the stream is in pts order |
| Clip.MediaClip.constructor | sources/src/timeline.cpp:154-159 | a clip keeps its media and starts with start and length 0 |
| Clip.MediaClip.SetStart | sources/include/vd/timeline.hpp:85 | `set_start` overwrites the start only |
| Clip.MediaClip.SetLength | sources/include/vd/timeline.hpp:88 | `set_length` overwrites the length only |
| Clip.MediaObject.constructor | sources/src/timeline.cpp:164-176 | `MediaObject()` followed by `setup`: the session is the registry's entry for the clip's file (inserted when new), and start, length, playing and the queue are empty or 0 |
| Clip.MediaObject.SetStart | sources/include/vd/timeline.hpp:52 | the track start changes and the clip's start does not |
| Clip.MediaObject.SetLength | sources/src/timeline.cpp:233-237 | both the clip's and the object's length become the new length |
| Clip.MediaObject.SetPlaying | sources/include/vd/timeline.hpp:58 | `set_playing` overwrites `playing_` only |
| Clip.MediaObject.ReadFrame | sources/src/timeline.cpp:191-210 | one pass of the loop advances this stream's cursor by one and keeps the fill invariant, skipping a frame below `read_pts_` |
| Clip.MediaObject.PreloadNext | sources/src/timeline.cpp:186-218 | the queue becomes the old queue followed by the refill, at least 30 frames; only this stream's cursor moves; `read_pts_` is untouched; `ready_pts_` is the head's pts |
| Clip.MediaObject.Rewind | sources/src/timeline.cpp:178-182 | the queue is emptied, `read_pts_ = ready_pts_ = t`, and the shared session is sought to the clip's start plus `t` |
| Clip.MediaObject.Seek | sources/src/timeline.cpp:178-184 | after `seek(t)` the queue is the refill from where the session landed for the clip start plus `t`; with a pts-keeping presenter every queued frame is at or after `t` |
| Clip.MediaObject.SeekedSorted | sources/src/timeline.cpp:178-184 | after `seek(t)`, with a pts-keeping presenter, the queue is in pts order when the stream is from where the session landed |
| Clip.MediaObject.ShowNext | sources/src/timeline.cpp:220-231 | refills only when the queue is empty, returns the old head and leaves the rest in order; with a pts-keeping presenter the returned frame is at or after `read_pts_`; a pop keeps a pts-ordered queue ordered, and a refill of an empty queue is ordered when the stream is from the cursor on |
| Preview.SceneDurationBounds | sources/src/timeline.cpp:772-785 | no object of a scene ends after the scene's duration |
| Preview.SceneDurationAttained | sources/src/timeline.cpp:772-785 | a scene's duration is the end of one of its objects or 0, and a scene without objects lasts 0 |
| Preview.DurationsAreSceneDurations | sources/src/timeline.cpp:712-716 | the durations the scan adds up are the scenes' own `duration()`s |
| Preview.SceneFromTime | sources/src/timeline.cpp:707-719 | the scene found is one of the timeline's scenes |
| Preview.SceneFromTimeIsFirst | sources/src/timeline.cpp:707-719 | `scene_from_time` returns the first scene whose cumulative interval holds `t`, or null exactly when there are no scenes or `t` is past the total duration |
| Preview.PeekInIsFirst | sources/src/timeline.cpp:132-148 | `find` over a track returns the first object covering `t`, or null exactly when none does |
| Preview.TrackClip | sources/src/timeline.cpp:132-148 | the object found is on track `i` of the scene, and so on the timeline |
| Preview.TrackClipIsFirst | sources/src/timeline.cpp:132-148 | the object found satisfies `start() <= t <= start() + length()` and no earlier object does; null exactly when none does |
| Preview.PreviewState.constructor | sources/src/timeline.cpp:46-53 | the initialisers and then `sync(0)`: the default preset, the scene at 0, and both clips selected at 0 and sought to 0; only those two clips and their sessions change, and no object moves |
| Preview.PreviewState.PeekVideoClip | sources/src/timeline.cpp:132-139 | the object returned is one of the timeline's |
| Preview.PreviewState.PeekAudioClip | sources/src/timeline.cpp:141-148 | the object returned is one of the timeline's |
| Preview.PreviewState.Restart | sources/src/timeline.cpp:67-72 | a non-null clip is sought to 0, its queue refilled and `ready_pts_` set to its head |
| Preview.PreviewState.UseVideo | sources/src/timeline.cpp:65-68 | `video_clip_` becomes the clip, which is sought to 0 |
| Preview.PreviewState.UseAudio | sources/src/timeline.cpp:70-72 | `audio_clip_` becomes the clip, which is sought to 0; a different, already sought video clip stays sought |
| Preview.PreviewState.UseBoth | sources/src/timeline.cpp:65-72 | both clips are stored and both end up sought to 0; only those two clips and their sessions change, and no object moves |
| Preview.PreviewState.EnterScene | sources/src/timeline.cpp:59-75 | the found scene becomes current, `playing_` becomes `t`, and the clips under `t` on tracks 0 and 1 are selected and sought to 0; only those two clips and their sessions change, and no object moves |
| Preview.PreviewState.SetScene | sources/src/timeline.cpp:57-75 | `scene_` becomes the found value; with no scene, nothing else changes; only the clips selected in the found scene and their sessions change, and no object moves |
| Preview.PreviewState.Sync | sources/src/timeline.cpp:55-76 | the scene becomes `scene_from_time(t)`; with none, nothing else changes; otherwise `playing_ = t` and both clips are re-selected at `t` and sought to 0; only the clips of `scene_from_time(t)` and their sessions change, and no object moves |
| Preview.PreviewState.SyncTwice | sources/src/timeline.cpp:55-76 | two `sync(t)` calls select the same scene and clips as one, and leave both clips sought to 0; only those clips and their sessions change |
| Preview.PreviewState.Present | sources/src/timeline.cpp:93-96 | the clip's `playing_` becomes `playing_ - start()` and it shows the head of its next queue |
| Preview.PreviewState.ShowVideo | sources/src/timeline.cpp:80-98 | with the clip peeked at the new time: `playing_` becomes that time, the clip becomes `video_clip_`, is sought to 0 if it differs, and shows its next frame; null exactly when there is no clip |
| Preview.PreviewState.NextVideo | sources/src/timeline.cpp:78-99 | `playing_` grows by exactly `time_base_`; the clip peeked at the new time becomes `video_clip_`; a new clip is sought to 0 and shows the head of its fresh queue, a kept one pops its next frame; its `playing_` is the time since its start; the result is null exactly when no clip covers the new time; only the peeked clip and its session change |
| Preview.PreviewState.MisuseAudio | sources/src/timeline.cpp:105-119 | as written: a different clip is stored in `video_clip_`, the stale `audio_clip_` is sought, and the frame comes from the peeked clip |
| Preview.PreviewState.NextAudio | sources/src/timeline.cpp:101-120 | as written: `playing_`, the scene and `audio_clip_` never change; a different peeked clip overwrites `video_clip_`; only the peeked clip, the old `audio_clip_` and their sessions change |
| Preview.PreviewState.ShowAudio | sources/src/timeline.cpp:101-120 | corrected: the peeked clip becomes `audio_clip_`, is sought to 0 if it differs, and shows its next frame |
| Preview.PreviewState.NextAudioCorrected | sources/src/timeline.cpp:101-120 | corrected: the clip under `playing_` on track 1 becomes `audio_clip_`; `video_clip_` and `playing_` are untouched; only the peeked clip and its session change |
| Preview.PreviewState.UpdatePreset | sources/src/timeline.cpp:122-125 | `update_preset` replaces the preset |
| Preview.PreviewState.TimeBase | sources/src/timeline.cpp:127-130 | `time_base()` is 1/24 s truncated to whole ticks: `24 * r <= AV_TIME_BASE < 24 * (r + 1)` |
| Sdl.VideoPrepare | sources/src/sdl.cpp:153-169 | an FFmpeg frame gives an SDL video frame with the input's pts; any other frame gives none |
| Sdl.VideoPresenterKeepsPts | sources/src/sdl.cpp:153-169 | the video presenter keeps pts, so the queue properties that need a pts-keeping presenter apply |
| Sdl.AudioPrepare | sources/src/sdl.cpp:202-216 | a decodable FFmpeg frame gives a new SDL audio frame with pts 0; anything else gives none |
| Sdl.AudioPresenterKeepsPtsOnlyAtZero | sources/src/sdl.cpp:202-216 | the audio presenter keeps pts exactly when every frame it accepts has pts 0 |
| Sdl.CorrectionWithinTenPercent | sources/src/sdl.cpp:268-272 | a corrected sample count stays within 90%..110% of the frame's count; inside that window it is the count plus the correction, outside it the nearer bound |
| Sdl.Synchronize | sources/src/sdl.cpp:251-287 | a large difference resets both globals and leaves the count; while fewer than 20 measures are in, the counter grows by one and the count is unchanged; the counter never passes 20; a changed count needs a trusted average above the threshold; a trusted average gives the filtered difference, and above the threshold the clamped correction of the count |
| Sdl.NoCorrectionWhileWarmingUp | sources/src/sdl.cpp:259-277 | a call that changes the sample count comes at least 20 calls after the counter stood at a given value, so the 20 calls after a reset never correct |
| Sdl.AudioDiff.constructor | sources/src/sdl.cpp:227-228 | both globals start at 0 |
| Sdl.AudioDiff.SynchronizeAudio | sources/src/sdl.cpp:251-287 | the branch code updates the globals and returns the count that `Synchronize` gives |
| Sdl.Drained | sources/src/sdl.cpp:418-423 | as written: the pending bytes move to the front, the byte at the new index keeps its value, and everything after it is zero |
| Sdl.DrainedCorrected | sources/src/sdl.cpp:418-423 | corrected: the pending bytes move to the front and everything from the new index on is zero |
| Sdl.DrainLeavesStaleByte | sources/src/sdl.cpp:423 | a full non-zero buffer drained by 4096 keeps a non-zero byte at the new index, where the corrected drain has 0 |
| Sdl.SdlAudio.constructor | sources/src/sdl.cpp:359-363 | `write_` is false and the index 0 |
| Sdl.SdlAudio.Open | sources/src/sdl.cpp:365-394 | the spec is kept with a signed 16-bit format and no channel layout; `write_` is cleared and the buffer emptied |
| Sdl.SdlAudio.SigWrite | sources/src/sdl.cpp:397-401 | sets `write_` |
| Sdl.SdlAudio.EnoughAudio | sources/src/sdl.cpp:403-407 | returns `write_` |
| Sdl.SdlAudio.Write | sources/src/sdl.cpp:442-451 | the pending bytes grow by the mixed frame; the index grows by `frame.size`; `write_` and the result both say whether more than half of the 16384 bytes are pending |
| Sdl.SdlAudio.AudioCallback | sources/src/sdl.cpp:409-432 | with `write_` set and `len` bytes pending, SDL gets the first `len` bytes, the rest moves down, the index drops by `len` and `write_` is cleared; otherwise SDL gets zeros and nothing changes |
| Sdl.SdlAudio.AudioCallbackCorrected | sources/src/sdl.cpp:409-432 | the same drain, with the buffer entirely silent past the pending bytes |

## Left out

- Qt widgets, SDL rendering and overlays, the blitter, the resampler and FFmpeg are not modelled. A decode session is fixed per-stream frame sequences with cursors, plus a seek rule given as a function.
- The mutex in `SdlAudio` and every thread are left out; each `SdlAudio` method is one atomic step.
- The `printf` calls and `VD_ERR` logging are left out.
- Floating point in `synchronize_audio` becomes inputs:
  - the `exp`/`log` coefficient;
  - the `double` diff and `avg_diff`;
  - the threshold, and the `(int)` conversions.
  The two comparisons are booleans, and the conversions are integers (`Measure`). So the model does not tie the new `audio_diff_cum` to the old one, and `audio_diff_threshold`, which the audio decoder sets from the buffer size, enters only through `aboveThreshold`.
- Sdl.AudioDiff.SynchronizeAudio: does not model the 32-bit overflow of `nb_samples * 110` or of `nb_samples + correction`. Sample counts per frame are far below that range.
- `SDL_MixAudio` is an opaque fill: `Write` takes the mixed bytes as an input. The channel and volume have no effect on the model.
- Sdl.SdlAudio.Write: requires the frame to fit in the buffer. The source does not check this and writes past `audio_buf_` otherwise.
- Sdl.SdlAudio.AudioCallback: requires that the zeroed length `audio_buf_sz_ - audio_buf_index_ - 1` does not wrap around. That is, a zero-byte request of a full buffer is excluded.
- Sdl.AudioPrepare: the audio decoder's success is an input (`decodes`). The sample data of an audio frame is not modelled.
- `SdlAudio::queue_audio` and `render_audio` are not modelled: `queue_audio` only forwards to `write`, and `render_audio` is empty.
- The `spec()` getter is not modelled as a member; the spec is a field.
- `MediaObject::time_base()` and `MediaObject::decoder()` are not modelled. They only forward the session's `time_base` and return the session.
- `DecodingState::length`, `time_base`, `width` and `height` are not modelled: nothing in the playback core reads them.
- `TimeLineTrack(int)` and `track()` are the `index` field of the `Track` value, set once at construction and read back unchanged.
- The `TimeLine` and `Scene` constructors, `notify_project`, the project wiring and `TimeLine::_create_test` are not modelled; a timeline is a value given to `PreviewState`.
- The `MediaDecoder` singleton (`i()`, `instance_`) is replaced by passing the registry explicitly.
- `try_decode` is replaced by the session given to `Decode`; a failed open, which the source caches as a null session, is not modelled.
- Clip.MediaObject.constructor: requires that the session it ends up with is valid and has the stream `stream_id`. `setup` checks neither, and a later `peek_frame` would read a missing stream.
- Preview.Playable: required of the timeline by `PreviewState`, and stronger than what the source checks at construction. Every scene must have tracks 0 and 1, which both peeks index. Every object must name a stream of its session and have enough frames at or after 0 to fill a queue, because `seek(0)` dereferences a null frame otherwise.
- Preview.PreviewState.PeekVideoClip: requires a current scene with track 0; the source dereferences `scene_` and `tracks_[0]` unchecked.
- Preview.PreviewState.PeekAudioClip: requires a current scene with track 1; the source dereferences `scene_` and `tracks_[1]` unchecked.
- Preview.PreviewState.NextVideo: requires that a re-used video clip can show a frame (`NextVideoReady`). `show_next` dereferences a null frame at the end of a stream. It also requires a current scene; after `sync` past the end the peek dereferences a null `scene_`.
- Preview.PreviewState.NextAudio: requires that the peeked clip is not null whenever `audio_clip_` is not null. The source dereferences it in that case. It also requires that the peeked clip can show a frame (`CanShow`): `show_next` on it dereferences a null frame at the end of its stream. It also requires that the peeked clip is either the audio clip or uses another session. With a shared session the stale clip's seek also moves the peeked clip's stream, and NextAudio's contract does not state the peeked clip's queue after that seek. It also requires a current scene; after `sync` past the end the peek dereferences a null `scene_`.
- Preview.PreviewState.NextAudioCorrected: requires a current scene; after `sync` past the end the peek dereferences a null `scene_`.
- Preview.PreviewState.EnterScene: takes both peeks before either seek. This equals the source's order because a seek never changes a `start()` or `length()`.
- Clip.MediaObject.PreloadNext: the queue keeps decode order. It is in pts order only when the decoder's stream is, from the read position on (`Clip.RefillSorted`); a stream out of pts order gives a queue out of pts order.
- Clip.MediaObject.PreloadNext: requires enough frames at or after `read_pts_` and a presenter that accepts each of them. The source dereferences a null frame at the end of a stream and would enqueue a null presenter result.
- Proto.Num: reads the union of the eight bytes and the 64-bit integer as little-endian. On a big-endian machine the value of `num_`, and so the ordering `<` of `proto.cpp` lines 49-52, differ.
- Proto.ToStr: requires a non-zero byte in the name. Its guard `last >= 0` always holds for a `size_t`, so an all-zero name would index before the array. Every `Id8` the constructor accepts has such a byte.
- The archive helpers, `CircularBuffer`, `Logger`, `Preview::_start_play`, `Preview::seek` and the WAV demo are not modelled.
- `Scene::_create_test` is modelled only as the span layout of its video track (`Timeline.TestVideoTrack`).

## Findings

| source | as written | input that shows it | evidently intended | confidence | as-written member | corrected member |
|---|---|---|---|---|---|---|
| sources/src/timeline.cpp:105-110 | when the clip under `playing_` on track 1 differs from `audio_clip_`, it is stored in `video_clip_`, and the old `audio_clip_` is the one sought to 0; `audio_clip_` never changes | a scene whose track 1 has an audio clip at `playing_` while `audio_clip_` is null: after `next_audio` the audio clip is `video_clip_` and `audio_clip_` is still null | `audio_clip_ = clip`, then `audio_clip_->seek(0)`, mirroring `next_video` | high, not executed | Preview.PreviewState.NextAudio | Preview.PreviewState.NextAudioCorrected |
| sources/src/sdl.cpp:423 | after the pending bytes move down, `memset` zeroes from `audio_buf_index_ + 1`, so the byte at the new index keeps its old value and the next `write` mixes into it | a full buffer of bytes 1 drained by 4096: byte 12288 stays 1 (`Sdl.DrainLeavesStaleByte`) | zero from the new index itself: `memset(audio_buf_ + audio_buf_index_, 0, audio_buf_sz_ - audio_buf_index_)` | medium, not executed | Sdl.SdlAudio.AudioCallback | Sdl.SdlAudio.AudioCallbackCorrected |
