/**
 * Decode sessions and their memoization: the `DecodingState` interface of
 * sources/include/vd/proto.hpp, `Media` (sources/src/proto.cpp) and the
 * filename-keyed `MediaDecoder` registry (sources/src/timeline.cpp).
 */
module Decoding {
  import opened Wrappers
  import opened Proto

  /** A decode session. The FFmpeg decoder behind the interface is replaced by
      what the core relies on: each stream yields a fixed, finite sequence of
      frames in decode order, read through a cursor; `seek` moves every
      stream's cursor to where the seek rule `locate` puts it. */
  class DecodingState {
    const streams: seq<seq<Frame>>
    const locate: (nat, nat) -> nat
    var cursors: seq<nat>

    ghost predicate Valid()
      reads this
    {
      |cursors| == |streams| && forall i :: 0 <= i < |streams| ==> cursors[i] <= |streams[i]|
    }

    constructor (streams: seq<seq<Frame>>, locate: (nat, nat) -> nat)
      ensures Valid()
      ensures this.streams == streams && this.locate == locate
      ensures forall i :: 0 <= i < |streams| ==> cursors[i] == 0
    {
      this.streams := streams;
      this.locate := locate;
      cursors := seq(|streams|, i => 0);
    }

    /** Where stream `id` stands after `seek(t)`. */
    function Located(id: nat, t: nat): (c: nat)
      requires id < |streams|
      ensures c <= |streams[id]|
    {
      if locate(id, t) < |streams[id]| then locate(id, t) else |streams[id]|
    }

    /** `peek_frame(stream_id)`: the next frame of that stream, or none once
        the stream is finished. */
    method PeekFrame(id: nat) returns (f: Option<Frame>)
      requires Valid() && id < |streams|
      modifies this`cursors
      ensures Valid()
      ensures old(cursors[id]) < |streams[id]| ==>
        f == Some(streams[id][old(cursors[id])]) && cursors == old(cursors)[id := old(cursors[id]) + 1]
      ensures old(cursors[id]) == |streams[id]| ==> f == None && cursors == old(cursors)
    {
      if cursors[id] < |streams[id]| {
        f := Some(streams[id][cursors[id]]);
        cursors := cursors[id := cursors[id] + 1];
      } else {
        f := None;
      }
    }

    /** `seek(t)`: repositions every stream of the session. */
    method Seek(t: nat)
      requires Valid()
      modifies this`cursors
      ensures Valid()
      ensures |cursors| == |streams| && forall i :: 0 <= i < |streams| ==> cursors[i] == Located(i, t)
    {
      cursors := seq(|streams|, i requires 0 <= i < |streams| => Located(i, t));
    }
  }

  /** `MediaDecoder`: one decode session per filename. */
  class MediaDecoder {
    var decoders: map<string, DecodingState>

    constructor ()
      ensures decoders == map[]
    {
      decoders := map[];
    }

    /** `decode(media)`: the cached session when the filename is already a
        key, otherwise `session` -- the session `try_decode` opens -- which is
        inserted. Entries are never replaced or removed. */
    method Decode(media: Media, session: DecodingState) returns (d: DecodingState)
      modifies this
      ensures media.filename in old(decoders) ==> d == old(decoders)[media.filename] && decoders == old(decoders)
      ensures media.filename !in old(decoders) ==> d == session && decoders == old(decoders)[media.filename := session]
      ensures media.filename in decoders && decoders[media.filename] == d
      ensures forall k :: k in old(decoders) ==> k in decoders && decoders[k] == old(decoders)[k]
    {
      if media.filename in decoders {
        d := decoders[media.filename];
      } else {
        d := session;
        decoders := decoders[media.filename := session];
      }
    }
  }

  /** `Media`: a filename and a lazily fetched decode session. */
  class Media {
    const filename: string
    var decoder: DecodingState?

    /** `Media(filename)` stores the filename unchanged. */
    constructor (filename: string)
      ensures this.filename == filename && decoder == null
    {
      this.filename := filename;
      decoder := null;
    }

    /** `decoder()`: asks the registry on the first call only; later calls
        return the cached handle and leave the registry alone. */
    method Decoder(registry: MediaDecoder, session: DecodingState) returns (d: DecodingState)
      modifies this, registry
      ensures old(decoder) != null ==> d == old(decoder) && unchanged(registry)
      ensures old(decoder) == null ==>
        && (filename in old(registry.decoders) ==> d == old(registry.decoders)[filename] && registry.decoders == old(registry.decoders))
        && (filename !in old(registry.decoders) ==> d == session && registry.decoders == old(registry.decoders)[filename := session])
      ensures decoder == d
    {
      if decoder == null {
        decoder := registry.Decode(this, session);
      }
      d := decoder;
    }
  }

  /** Two fetches for the same filename share one session, whichever objects
      ask: the registry returns what it stored the first time. */
  method SharedSession(registry: MediaDecoder, a: Media, b: Media, sessionA: DecodingState, sessionB: DecodingState)
    returns (da: DecodingState, db: DecodingState)
    requires a.filename == b.filename
    modifies registry
    ensures da == db
    ensures a.filename !in old(registry.decoders) ==> da == sessionA
  {
    da := registry.Decode(a, sessionA);
    db := registry.Decode(b, sessionB);
  }
}
