/** The Recorder component's state, held in fields and updated in place by its
    handlers. Every handler is specified by the session state machine: the new
    state is `Step` of the old one on the matching event, and the machine's
    lemmas say what that means. */
module RecorderComponent {
  import opened Wrappers
  import opened TrackMerge
  import opened Session

  class Recorder {
    // useState hooks
    var videoURL: string
    var status: Status
    var duration: nat
    var useMic: bool
    var showError: bool
    var stream: Option<seq<Track>>
    // recorder.current != null
    var hasRecorder: bool
    // the display video track whose `ended` event is watched
    var endWatched: Option<Track>
    // stop callbacks the engine still owes, oldest first
    var pending: seq<PendingStop>
    // calls made into the recording engine and the duration correction
    var calls: seq<EngineCall>
    // tracks whose stop() has been called
    var stoppedTracks: seq<Track>

    function Abstract(): State
      reads this
    {
      State(status, duration, useMic, videoURL, showError, stream,
            hasRecorder, endWatched, pending, calls, stoppedTracks)
    }

    ghost predicate Valid()
      reads this
    {
      Inv(Abstract())
    }

    /** Mounting: the initial hook values, then the compatibility check. */
    constructor (mediaDevices: bool)
      ensures Valid()
      ensures Abstract() == Init(mediaDevices)
    {
      videoURL, status, duration, useMic := "", Idle, 0, false;
      showError := false;
      stream, hasRecorder, endWatched := None, false, None;
      pending, calls, stoppedTracks := [], [], [];
      if !mediaDevices {
        showError := true;
      }
    }

    /** The "Use mic?" checkbox. */
    method ToggleMic()
      requires Valid() && Enabled(Abstract(), Event.ToggleMic)
      modifies this
      ensures Valid()
      ensures Abstract() == Step(old(Abstract()), Event.ToggleMic)
      ensures useMic == !old(useMic)
    {
      useMic := !useMic;
    }

    /** startRecording, up to the capture requests. */
    method StartRecording()
      requires Valid() && Enabled(Abstract(), Start)
      modifies this
      ensures Valid()
      ensures Abstract() == Step(old(Abstract()), Start)
      ensures status == AcquiringMedia
    {
      status := AcquiringMedia;
    }

    /** startRecording, after the capture requests settle. `mic` is the
        microphone grant (None when denied; not asked for when the toggle is
        off), `screen` the display grant (None when denied or cancelled). */
    method MediaAcquired(mic: Option<seq<Track>>, screen: Option<seq<Track>>)
      requires Valid() && Enabled(Abstract(), Acquired(mic, screen))
      modifies this
      ensures Valid()
      ensures Abstract() == Step(old(Abstract()), Acquired(mic, screen))
      ensures status == if screen.None? then Idle else Recording
    {
      if screen.None? {
        status := Idle;
        return;
      }
      var micStream: Option<seq<Track>> := None;
      if useMic {
        micStream := mic;
      }
      var allStreams := MergeTracks(micStream, useMic, screen.value);
      calls := calls + [CreateRecorder(allStreams), StartRec];
      hasRecorder := true;
      endWatched := FirstVideo(screen.value);
      stream := screen;
      status := Recording;
    }

    method PauseRecording()
      requires Valid() && Enabled(Abstract(), Pause)
      modifies this
      ensures Valid()
      ensures Abstract() == Step(old(Abstract()), Pause)
      ensures status == Paused && duration == old(duration)
    {
      if hasRecorder {
        calls := calls + [PauseRec];
      }
      status := Paused;
    }

    method ResumeRecording()
      requires Valid() && Enabled(Abstract(), Resume)
      modifies this
      ensures Valid()
      ensures Abstract() == Step(old(Abstract()), Resume)
      ensures status == Recording && duration == old(duration)
    {
      if hasRecorder {
        calls := calls + [ResumeRec];
      }
      status := Recording;
    }

    /** stopRecording: the callback handed to the engine captures the
        duration and the display stream as they are now. */
    method StopRecording()
      requires Valid() && Enabled(Abstract(), Stop)
      modifies this
      ensures Valid()
      ensures Abstract() == Step(old(Abstract()), Stop)
      ensures status == Stopped && duration == 0
      ensures pending == old(pending) + [PendingStop(old(duration) * 1000, old(stream))]
    {
      if hasRecorder {
        calls := calls + [StopRec];
        pending := pending + [PendingStop(duration * 1000, stream)];
      }
      status := Stopped;
      duration := 0;
    }

    /** The engine's stop callback, with the URL of the corrected blob. */
    method OnRecorderStopped(url: string)
      requires Valid() && Enabled(Abstract(), RecorderStopped(url))
      modifies this
      ensures Valid()
      ensures Abstract() == Step(old(Abstract()), RecorderStopped(url))
      ensures calls == old(calls) + [FixDuration(old(pending)[0].millis)] && videoURL == url
    {
      var p := pending[0];
      pending := pending[1..];
      calls := calls + [FixDuration(p.millis)];
      if p.stream.Some? {
        stoppedTracks := stoppedTracks + p.stream.value;
      }
      videoURL := url;
    }

    /** The Restart button. */
    method Restart()
      requires Valid() && Enabled(Abstract(), Event.Restart)
      modifies this
      ensures Valid()
      ensures Abstract() == Step(old(Abstract()), Event.Restart)
      ensures status == Idle && duration == 0 && videoURL == old(videoURL)
    {
      status := Idle;
    }

    /** One second of the interval that runs only while recording. */
    method Tick()
      requires Valid()
      modifies this
      ensures Valid()
      ensures Abstract() == Step(old(Abstract()), Event.Tick)
      ensures duration == if old(status) == Recording then old(duration) + 1 else old(duration)
    {
      if status == Recording {
        duration := duration + 1;
      }
    }
  }
}
