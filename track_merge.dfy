/** The composite stream handed to the recording engine: a fresh MediaStream
    into which the microphone tracks (when a microphone stream was obtained and
    the microphone toggle is on) and then every track of the display stream are
    added one at a time. Tracks are abstract values; a MediaStream holds each
    track at most once, so adding a track it already holds does nothing. */
module TrackMerge {
  import opened Wrappers

  datatype TrackKind = Audio | Video

  /** A media track, identified by the host; `kind` tells audio from video. */
  datatype Track = Track(id: nat, kind: TrackKind)

  predicate NoDuplicates(ts: seq<Track>)
  {
    forall i, j :: 0 <= i < j < |ts| ==> ts[i] != ts[j]
  }

  /** MediaStream.addTrack: appends the track unless the stream already has it. */
  function AddTrack(stream: seq<Track>, t: Track): seq<Track>
  {
    if t in stream then stream else stream + [t]
  }

  /** ts.forEach(track => stream.addTrack(track)) */
  function AddAll(stream: seq<Track>, ts: seq<Track>): seq<Track>
    decreases |ts|
  {
    if ts == [] then stream
    else AddTrack(AddAll(stream, ts[..|ts| - 1]), ts[|ts| - 1])
  }

  /** Adding a list keeps what the stream held as a prefix and ends up holding
      exactly the stream's and the list's tracks, each once if the stream's were. */
  lemma {:induction false} AddAllContents(stream: seq<Track>, ts: seq<Track>)
    ensures var r := AddAll(stream, ts);
      (forall u :: u in r <==> u in stream || u in ts) &&
      (NoDuplicates(stream) ==> NoDuplicates(r)) &&
      |stream| <= |r| && r[..|stream|] == stream
    decreases |ts|
  {
    if ts != [] {
      var front, last := ts[..|ts| - 1], ts[|ts| - 1];
      assert ts == front + [last];
      AddAllContents(stream, front);
      var p := AddAll(stream, front);
      assert AddAll(stream, ts) == AddTrack(p, last);
      if last !in p {
        assert (p + [last])[..|stream|] == p[..|stream|];
      }
    }
  }

  /** With distinct tracks throughout, adding a list is concatenation. */
  lemma {:induction false} AddAllDistinct(stream: seq<Track>, ts: seq<Track>)
    requires NoDuplicates(stream + ts)
    ensures AddAll(stream, ts) == stream + ts
    decreases |ts|
  {
    if ts != [] {
      var front, last := ts[..|ts| - 1], ts[|ts| - 1];
      var all, n := stream + ts, |stream + front|;
      assert ts == front + [last];
      assert all == (stream + front) + [last];
      assert forall i :: 0 <= i < n ==> (stream + front)[i] == all[i];
      assert all[n] == last;
      AddAllDistinct(stream, front);
    }
  }

  /** The tracks that go in first: the microphone's, but only when a
      microphone stream exists and the toggle is on. */
  function MicPart(micStream: Option<seq<Track>>, useMic: bool): seq<Track>
  {
    if micStream.Some? && useMic then micStream.value else []
  }

  /** The track list of the composite stream (Recorder.tsx:121-130). */
  function CompositeTracks(micStream: Option<seq<Track>>, useMic: bool, screenTracks: seq<Track>): seq<Track>
  {
    AddAll(AddAll([], MicPart(micStream, useMic)), screenTracks)
  }

  /** Every display track is in the composite; a microphone track is in it
      exactly when a microphone stream was obtained and the toggle is on; nothing
      else is, and no track is there twice. */
  lemma CompositeContents(micStream: Option<seq<Track>>, useMic: bool, screenTracks: seq<Track>)
    ensures var r := CompositeTracks(micStream, useMic, screenTracks);
      NoDuplicates(r) &&
      forall u :: u in r <==> u in screenTracks || (micStream.Some? && useMic && u in micStream.value)
  {
    var mic := MicPart(micStream, useMic);
    AddAllContents([], mic);
    AddAllContents(AddAll([], mic), screenTracks);
  }

  /** With distinct tracks, the composite is the microphone tracks followed by
      all display tracks, in order. */
  lemma CompositeOrder(micStream: Option<seq<Track>>, useMic: bool, screenTracks: seq<Track>)
    requires NoDuplicates(MicPart(micStream, useMic) + screenTracks)
    ensures CompositeTracks(micStream, useMic, screenTracks) == MicPart(micStream, useMic) + screenTracks
  {
    var mic := MicPart(micStream, useMic);
    assert [] + mic == mic;
    assert NoDuplicates([] + mic) by {
      assert forall i :: 0 <= i < |mic| ==> mic[i] == (mic + screenTracks)[i];
    }
    AddAllDistinct([], mic);
    AddAllDistinct(mic, screenTracks);
  }

  /** Microphone audio does not replace the display's own audio: when both are
      present, both are recorded. */
  lemma MicDoesNotReplaceSystemAudio(micTracks: seq<Track>, screenTracks: seq<Track>, mic: Track, system: Track)
    requires mic in micTracks && mic.kind == Audio
    requires system in screenTracks && system.kind == Audio
    ensures mic in CompositeTracks(Some(micTracks), true, screenTracks)
    ensures system in CompositeTracks(Some(micTracks), true, screenTracks)
  {
    CompositeContents(Some(micTracks), true, screenTracks);
  }

  /** The merge as the source runs it: a fresh stream and two forEach loops. */
  method MergeTracks(micStream: Option<seq<Track>>, useMic: bool, screenTracks: seq<Track>) returns (all: seq<Track>)
    ensures all == CompositeTracks(micStream, useMic, screenTracks)
  {
    all := [];
    if micStream.Some? && useMic {
      var ts := micStream.value;
      for i := 0 to |ts|
        invariant all == AddAll([], ts[..i])
      {
        assert ts[..i + 1][..i] == ts[..i];
        all := AddTrack(all, ts[i]);
      }
      assert ts[..|ts|] == ts;
    }
    ghost var first := all;
    for i := 0 to |screenTracks|
      invariant all == AddAll(first, screenTracks[..i])
    {
      assert screenTracks[..i + 1][..i] == screenTracks[..i];
      all := AddTrack(all, screenTracks[i]);
    }
    assert screenTracks[..|screenTracks|] == screenTracks;
  }

  /** getVideoTracks()[0]: the first video track, if there is one. */
  function FirstVideo(ts: seq<Track>): (r: Option<Track>)
    ensures r.None? <==> forall i :: 0 <= i < |ts| ==> ts[i].kind != Video
    ensures r.Some? ==> r.value in ts && r.value.kind == Video
    ensures r.Some? ==> exists k :: 0 <= k < |ts| && ts[k] == r.value
                                   && forall i :: 0 <= i < k ==> ts[i].kind != Video
  {
    if ts == [] then None
    else if ts[0].kind == Video then Some(ts[0])
    else
      var r := FirstVideo(ts[1..]);
      assert r.Some? ==> exists k :: 0 <= k < |ts| && ts[k] == r.value
                                       && forall i :: 0 <= i < k ==> ts[i].kind != Video by {
        if r.Some? {
          var k :| 0 <= k < |ts[1..]| && ts[1..][k] == r.value
                   && forall i :: 0 <= i < k ==> ts[1..][i].kind != Video;
          assert forall i :: 0 <= i < k + 1 ==> ts[i].kind != Video by {
            forall i | 0 <= i < k + 1 ensures ts[i].kind != Video {
              if i > 0 { assert ts[i] == ts[1..][i - 1]; }
            }
          }
          assert ts[k + 1] == r.value;
        }
      }
      assert r.None? ==> forall i :: 0 <= i < |ts| ==> ts[i].kind != Video by {
        if r.None? {
          forall i | 0 <= i < |ts| ensures ts[i].kind != Video {
            if i > 0 { assert ts[i] == ts[1..][i - 1]; }
          }
        }
      }
      r
  }
}
