/** The recording session of the Recorder component as a state machine over
    values: its state hooks (status, duration, useMic, videoURL, showError,
    the held display stream), whether `recorder.current` holds a recorder, the
    calls made into the opaque recording engine and duration-correction
    library, the stop callbacks that engine still owes, and the tracks stopped
    so far. Each user action, engine callback or clock tick is an Event;
    `Enabled` says which ones the rendered view (or the host) can deliver in a
    state, and `Step` is the state after one. React's setState is taken as an
    immediate assignment. */
module Session {
  import opened Wrappers
  import opened TrackMerge

  datatype Status = Idle | AcquiringMedia | Recording | Paused | Stopped

  /** An observable call into RecordRTC or fix-webm-duration, with its arguments. */
  datatype EngineCall =
    | CreateRecorder(tracks: seq<Track>)   // new RecordRTC(allStreams, ...)
    | StartRec                             // startRecording()
    | PauseRec                             // pauseRecording()
    | ResumeRec                            // resumeRecording()
    | StopRec                              // stopRecording(callback)
    | FixDuration(millis: nat)             // fixWebmDuration(blob, millis, callback)

  /** What a stopRecording callback captured when stop was pressed: the
      correction in milliseconds and the display stream whose tracks it stops. */
  datatype PendingStop = PendingStop(millis: nat, stream: Option<seq<Track>>)

  datatype State = State(
    status: Status,
    duration: nat,
    useMic: bool,
    videoURL: string,
    showError: bool,
    stream: Option<seq<Track>>,
    hasRecorder: bool,
    endWatched: Option<Track>,
    pending: seq<PendingStop>,
    calls: seq<EngineCall>,
    stoppedTracks: seq<Track>)

  datatype Event =
    | ToggleMic                           // the "Use mic?" checkbox
    | Start                               // click on the idle square
    | Acquired(mic: Option<seq<Track>>, screen: Option<seq<Track>>)
                                          // the two capture requests settled; None = denied
    | Pause                               // click on the recording square
    | Resume                              // click on the paused square
    | Stop                                // the Stop button
    | RecorderStopped(url: string)        // the engine's stop callback, with the corrected blob's URL
    | Restart                             // the Restart button
    | Tick                                // one second of the duration interval

  /** The state after mounting; `mediaDevices` is whether the host offers capture. */
  function Init(mediaDevices: bool): (s: State)
    ensures Inv(s)
    ensures s.status == Idle && s.duration == 0 && !s.useMic && s.videoURL == ""
    ensures s.showError <==> !mediaDevices
  {
    State(Idle, 0, false, "", !mediaDevices, None, false, None, [], [], [])
  }

  /** The facts every reachable state satisfies. */
  ghost predicate Inv(s: State)
  {
    (s.showError ==> s.status == Idle && !s.hasRecorder) &&
    (s.status in {Recording, Paused} ==> s.hasRecorder && s.stream.Some?) &&
    (s.status !in {Recording, Paused} ==> s.duration == 0)
  }

  /** Which events can arrive in which status: the view renders the start,
      pause, resume, stop and restart controls only in the status named below,
      and the error view replaces every control when capture is unsupported. */
  predicate Enabled(s: State, e: Event)
  {
    match e
    case ToggleMic => !s.showError && s.status == Idle
    case Start => !s.showError && s.status == Idle
    case Acquired(_, _) => s.status == AcquiringMedia
    case Pause => s.status == Recording
    case Resume => s.status == Paused
    case Stop => s.status == Recording || s.status == Paused
    case RecorderStopped(_) => |s.pending| > 0
    case Restart => s.status == Stopped
    case Tick => true
  }

  /** The controls the view renders allow only the session's status graph:
      idle -> acquiring_media -> idle | recording; recording <-> paused;
      recording | paused -> stopped -> idle. Every other event keeps the
      status. In every state where pause, resume or stop can fire, the
      guarded `recorder.current?.` call finds a recorder. */
  lemma StatusGraph(s: State, e: Event)
    requires Inv(s) && Enabled(s, e)
    ensures var t := Step(s, e).status;
      t == s.status ||
      (s.status == Idle && t == AcquiringMedia) ||
      (s.status == AcquiringMedia && (t == Idle || t == Recording)) ||
      (s.status == Recording && (t == Paused || t == Stopped)) ||
      (s.status == Paused && (t == Recording || t == Stopped)) ||
      (s.status == Stopped && t == Idle)
    ensures e == Pause || e == Resume || e == Stop ==> s.hasRecorder
  {
  }

  /** `recorder.current?.f()`: the call is made only when a recorder is held. */
  function CallIfRecorder(s: State, c: EngineCall): seq<EngineCall>
  {
    if s.hasRecorder then s.calls + [c] else s.calls
  }

  function Step(s: State, e: Event): (r: State)
    requires Enabled(s, e)
    ensures Inv(s) ==> Inv(r)
  {
    match e
    case ToggleMic => s.(useMic := !s.useMic)
    case Start => s.(status := AcquiringMedia)
    case Acquired(mic, screen) =>
      if screen.None? then s.(status := Idle)
      else
        // the microphone is only asked for when the toggle is on
        var micStream := if s.useMic then mic else None;
        var composite := CompositeTracks(micStream, s.useMic, screen.value);
        s.(calls := s.calls + [CreateRecorder(composite), StartRec],
           hasRecorder := true,
           endWatched := FirstVideo(screen.value),
           stream := screen,
           status := Recording)
    case Pause => s.(calls := CallIfRecorder(s, PauseRec), status := Paused)
    case Resume => s.(calls := CallIfRecorder(s, ResumeRec), status := Recording)
    case Stop =>
      s.(calls := CallIfRecorder(s, StopRec),
         pending := if s.hasRecorder then s.pending + [PendingStop(s.duration * 1000, s.stream)] else s.pending,
         status := Stopped,
         duration := 0)
    case RecorderStopped(url) =>
      var p := s.pending[0];
      s.(calls := s.calls + [FixDuration(p.millis)],
         stoppedTracks := s.stoppedTracks + (if p.stream.Some? then p.stream.value else []),
         videoURL := url,
         pending := s.pending[1..])
    case Restart => s.(status := Idle)
    case Tick => if s.status == Recording then s.(duration := s.duration + 1) else s
  }

  /** Delivers the events in order; None as soon as one is not enabled. */
  function Run(s: State, es: seq<Event>): Option<State>
    decreases |es|
  {
    if es == [] then Some(s)
    else if !Enabled(s, es[0]) then None
    else Run(Step(s, es[0]), es[1..])
  }

  /** n seconds of the clock. */
  function Ticks(n: nat): (es: seq<Event>)
    ensures |es| == n && forall i :: 0 <= i < n ==> es[i] == Tick
  {
    if n == 0 then [] else [Tick] + Ticks(n - 1)
  }

  // ---------------------------------------------------------------------------
  // Reachable states

  lemma {:induction false} RunPreservesInv(s: State, es: seq<Event>)
    requires Inv(s)
    ensures Run(s, es).Some? ==> Inv(Run(s, es).value)
    decreases |es|
  {
    if es != [] && Enabled(s, es[0]) {
      RunPreservesInv(Step(s, es[0]), es[1..]);
    }
  }

  /** Running two event lists one after the other is running their concatenation. */
  lemma {:induction false} RunAppend(s: State, es: seq<Event>, fs: seq<Event>)
    ensures Run(s, es + fs) == if Run(s, es).Some? then Run(Run(s, es).value, fs) else None
    decreases |es|
  {
    if es == [] {
      assert es + fs == fs;
    } else {
      assert (es + fs)[0] == es[0];
      assert (es + fs)[1..] == es[1..] + fs;
      if Enabled(s, es[0]) {
        RunAppend(Step(s, es[0]), es[1..], fs);
      }
    }
  }

  /** Two events in a row. */
  lemma RunTwo(s: State, a: Event, b: Event)
    ensures Run(s, [a, b]) ==
      if Enabled(s, a) && Enabled(Step(s, a), b) then Some(Step(Step(s, a), b)) else None
  {
    assert [a, b][1..] == [b];
    if Enabled(s, a) {
      assert Run(Step(s, a), [b]) == if Enabled(Step(s, a), b) then Run(Step(Step(s, a), b), []) else None by {
        assert [b][1..] == [];
      }
    }
  }

  /** One event. */
  lemma RunOne(s: State, a: Event)
    ensures Run(s, [a]) == if Enabled(s, a) then Some(Step(s, a)) else None
  {
    assert [a][1..] == [];
  }

  // ---------------------------------------------------------------------------
  // The duration counter

  /** The duration grows only on a tick while recording, by exactly one; stop
      is the only event that lowers it, and it lowers it to zero. */
  lemma DurationChanges(s: State, e: Event)
    requires Enabled(s, e)
    ensures Step(s, e).duration > s.duration <==> e == Tick && s.status == Recording
    ensures e == Tick && s.status == Recording ==> Step(s, e).duration == s.duration + 1
    ensures e != Stop ==> Step(s, e).duration >= s.duration
    ensures e == Stop ==> Step(s, e).duration == 0
  {
  }

  /** n ticks while recording add n to the duration and change nothing else;
      in any other status they change nothing at all. */
  lemma {:induction false} TicksAccumulate(s: State, n: nat)
    ensures Run(s, Ticks(n)) == Some(if s.status == Recording then s.(duration := s.duration + n) else s)
    decreases n
  {
    if n > 0 {
      var t := Step(s, Tick);
      assert Ticks(n)[1..] == Ticks(n - 1);
      TicksAccumulate(t, n - 1);
    }
  }

  /** Pausing, letting any number of seconds pass, and resuming leaves the
      duration where it was at the pause; only the two engine calls are added. */
  lemma PauseWaitResume(s: State, wait: nat)
    requires s.status == Recording && s.hasRecorder
    ensures Run(s, [Pause] + Ticks(wait) + [Resume]) == Some(s.(calls := s.calls + [PauseRec, ResumeRec]))
  {
    var p := Step(s, Pause);
    RunOne(s, Pause);
    TicksAccumulate(p, wait);
    RunOne(p, Resume);
    RunAppend(s, [Pause], Ticks(wait));
    RunAppend(s, [Pause] + Ticks(wait), [Resume]);
    assert Run(s, [Pause] + Ticks(wait)) == Some(p);
    assert Step(p, Resume).calls == s.calls + [PauseRec, ResumeRec];
  }

  // ---------------------------------------------------------------------------
  // Start

  /** Start moves to acquiring_media and nothing else. */
  lemma StartAcquires(s: State)
    requires Enabled(s, Start)
    ensures Step(s, Start) == s.(status := AcquiringMedia)
  {
  }

  /** A denied display grant returns the session to idle exactly as it was:
      no recorder is created or started, whatever happened to the microphone. */
  lemma DisplayDeniedReturnsToIdle(s: State, mic: Option<seq<Track>>)
    requires Enabled(s, Start)
    ensures Run(s, [Start, Acquired(mic, None)]) == Some(s)
  {
    RunTwo(s, Start, Acquired(mic, None));
  }

  /** A granted display starts recording whether or not the microphone was
      granted: the recorder is built on the composite tracks and started, and
      the display stream is held. */
  lemma DisplayGrantedRecords(s: State, mic: Option<seq<Track>>, screen: seq<Track>)
    requires s.status == AcquiringMedia
    ensures var r := Step(s, Acquired(mic, Some(screen)));
      r.status == Recording && r.duration == s.duration && r.hasRecorder && r.stream == Some(screen) &&
      r.calls == s.calls + [CreateRecorder(CompositeTracks(if s.useMic then mic else None, s.useMic, screen)), StartRec]
  {
  }

  /** A denied microphone (or the toggle off) records the display's tracks only. */
  lemma MicDeniedRecordsDisplayOnly(s: State, screen: seq<Track>)
    requires s.status == AcquiringMedia
    ensures Step(s, Acquired(None, Some(screen))).calls[|s.calls|] == CreateRecorder(AddAll([], screen))
  {
  }

  // ---------------------------------------------------------------------------
  // Pause, resume, stop, restart

  /** Pause and resume only move between recording and paused. */
  lemma PauseResumeStatus(s: State)
    requires Inv(s)
    ensures s.status == Recording ==>
      Step(s, Pause) == s.(status := Paused, calls := s.calls + [PauseRec])
    ensures s.status == Paused ==>
      Step(s, Resume) == s.(status := Recording, calls := s.calls + [ResumeRec])
  {
  }

  /** Stop asks the engine to stop, records a callback that will correct the
      blob to the duration read BEFORE the reset (in milliseconds) and stop the
      held display stream's tracks, and resets status and duration. */
  lemma StopSnapshotsDuration(s: State)
    requires Inv(s) && Enabled(s, Stop)
    ensures var r := Step(s, Stop);
      r.status == Stopped && r.duration == 0 &&
      r.calls == s.calls + [StopRec] &&
      r.pending == s.pending + [PendingStop(s.duration * 1000, s.stream)] &&
      r.videoURL == s.videoURL && r.useMic == s.useMic && r.stream == s.stream
  {
  }

  /** The engine's stop callback corrects the oldest pending blob with the
      captured milliseconds, stops the tracks captured with it, and shows the
      corrected recording. */
  lemma RecorderStoppedFinalizes(s: State, url: string)
    requires |s.pending| > 0
    ensures var r := Step(s, RecorderStopped(url));
      r.calls == s.calls + [FixDuration(s.pending[0].millis)] &&
      r.stoppedTracks == s.stoppedTracks + (if s.pending[0].stream.Some? then s.pending[0].stream.value else []) &&
      r.videoURL == url && r.pending == s.pending[1..] && r.status == s.status && r.duration == s.duration
  {
  }

  /** Restart changes only the status: the previous recording's URL, the
      microphone toggle and the held stream are kept, and the duration is
      already zero. */
  lemma RestartOnlyResetsStatus(s: State)
    requires Inv(s) && Enabled(s, Restart)
    ensures Step(s, Restart) == s.(status := Idle)
    ensures Step(s, Restart).duration == 0
  {
  }

  // ---------------------------------------------------------------------------
  // A whole session

  /** Record with the microphone off, let five seconds pass, stop, and let the
      engine call back: the correction receives 5000 ms, the duration is back at
      zero, and the display tracks are stopped. */
  lemma FiveSecondSession(screen: seq<Track>, url: string)
    ensures var r := Run(Init(true), [Start, Acquired(None, Some(screen))] + Ticks(5) + [Stop, RecorderStopped(url)]);
      r.Some? && r.value.status == Stopped && r.value.duration == 0 && r.value.videoURL == url &&
      r.value.calls == [CreateRecorder(AddAll([], screen)), StartRec, StopRec, FixDuration(5000)] &&
      r.value.stoppedTracks == screen && r.value.pending == []
  {
    var s0 := Init(true);
    var s1 := Step(Step(s0, Start), Acquired(None, Some(screen)));
    RunTwo(s0, Start, Acquired(None, Some(screen)));
    TicksAccumulate(s1, 5);
    RunAppend(s0, [Start, Acquired(None, Some(screen))], Ticks(5));
    var s2 := s1.(duration := 5);
    RunAppend(s0, [Start, Acquired(None, Some(screen))] + Ticks(5), [Stop, RecorderStopped(url)]);
    var s3 := Step(Step(s2, Stop), RecorderStopped(url));
    RunTwo(s2, Stop, RecorderStopped(url));
  }

  /** With the toggle on and the microphone granted, the microphone tracks
      are recorded, but the stop callback stops only the held display
      stream's tracks: a microphone track that is not a display track is
      never stopped. */
  lemma MicTracksNeverStopped(s: State, mic: seq<Track>, screen: seq<Track>, url: string, m: Track)
    requires Enabled(s, Start) && s.useMic && s.pending == []
    requires m in mic && m !in screen && m !in s.stoppedTracks
    ensures var r := Run(s, [Start, Acquired(Some(mic), Some(screen)), Stop, RecorderStopped(url)]);
      r.Some? &&
      CreateRecorder(CompositeTracks(Some(mic), true, screen)) in r.value.calls &&
      m in CompositeTracks(Some(mic), true, screen) &&
      r.value.stoppedTracks == s.stoppedTracks + screen &&
      m !in r.value.stoppedTracks
  {
    var s1 := Step(Step(s, Start), Acquired(Some(mic), Some(screen)));
    RunTwo(s, Start, Acquired(Some(mic), Some(screen)));
    var s2 := Step(Step(s1, Stop), RecorderStopped(url));
    RunTwo(s1, Stop, RecorderStopped(url));
    RunAppend(s, [Start, Acquired(Some(mic), Some(screen))], [Stop, RecorderStopped(url)]);
    assert [Start, Acquired(Some(mic), Some(screen))] + [Stop, RecorderStopped(url)]
           == [Start, Acquired(Some(mic), Some(screen)), Stop, RecorderStopped(url)];
    CompositeContents(Some(mic), true, screen);
    assert s1.calls[|s.calls|] == CreateRecorder(CompositeTracks(Some(mic), true, screen));
  }
}
