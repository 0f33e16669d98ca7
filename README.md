# Screen recorder session: a Dafny model

This project models the logic at the core of a browser screen recorder. The
`Recorder` component runs the recording session: it asks for a microphone and
a display capture, merges their tracks into one stream, and drives an opaque
recording engine through start, pause, resume and stop. A one-second tick
counts the recording's duration, and the recording view shows it as
`h:mm:ss`. On stop, the engine's blob is corrected to that duration and the
counter is reset to zero. Beside it sits a
duration clock worker, a message handler with `on`, `off` and `pause`
commands over a `time` counter, and the string step that cuts the worker's
script text out of its function source.

Modules, one per file:

- `Wrappers` (`wrappers.dfy`): `Option`.
- `DurationFormat` (`duration_format.dfy`): the hours/minutes/seconds split,
  `toString`, `padStart`, the `h:mm:ss` label, and a parser that reads the
  label back.
- `TrackMerge` (`track_merge.dfy`): tracks, `MediaStream.addTrack` (which
  ignores a track the stream already holds), the composite track list, the
  merge loop, and the first video track, whose `ended` event is watched.
- `Session` (`session.dfy`): the session as a state machine over values. It
  has the state, the events, which event the view lets through in which
  status (`Enabled`), one step (`Step`), runs of events, the invariant, and
  the lemmas.
- `RecorderComponent` (`recorder.dfy`): class `Recorder`. Its fields are the
  component's state hooks and the recorder ref. Each handler is a method
  whose new state is `Step` of the old state on the matching event.
- `Clock` (`clock.dfy`): the worker's state, its message handler and tick as
  functions with lemmas, and class `ClockWorker`, whose methods are specified
  by those functions.
- `WorkerScript` (`worker_script.dfy`): JavaScript `indexOf`, `lastIndexOf`
  and `substring` on strings, and the body extraction.

What the model takes as inputs:

- The outcome of each capture request is an input. A grant is
  `Some(tracks)` and a denial is `None`.
- The URL of the corrected blob is an input to the engine's stop callback.
- Whether the host offers capture at all is a constructor argument.
- Each second of an interval is an explicit `Tick` step. In the worker, the
  step names the interval that fires.
- The calls made into the recording engine (RecordRTC) and into the
  duration correction (fix-webm-duration) are recorded, with their
  arguments, in a `calls` log. The arguments are all that can be seen of
  those libraries.
- React's `setState` is modelled as an immediate assignment.

Behaviour of the code that a reader might not expect (the model follows the code):

- The composite stream holds the microphone tracks followed by every display
  track, the display's own audio included. The two audio sources are not
  exclusive (`TrackMerge.MicDoesNotReplaceSystemAudio`).
- Restart changes only the status. The previous recording's URL, the
  microphone toggle and the held stream are kept
  (`Session.RestartOnlyResetsStatus`).
- The held stream is the display stream (`setStream(_screenStream)`), so
  stop ends the display tracks only. The microphone tracks are never
  stopped (`Session.MicTracksNeverStopped`).
- Nothing stops a second stop from running. The only limit is that the Stop
  button is shown only while recording or paused.
- `Recorder.tsx` does not import `timer.ts`. Its duration comes from its own
  interval (Recorder.tsx:57-63), so the two clocks are modelled separately.

## Model

| member | source | states |
|---|---|---|
| `DurationFormat.Decomposition` | src/app/Recorder.tsx:148-150 | hours*3600 + minutes*60 + seconds equals the duration, and minutes and seconds are below 60 |
| `DurationFormat.ComponentsAreUnique` | src/app/Recorder.tsx:148-150 | any triple with minutes and seconds below 60 is recovered exactly from the duration it makes, so the split is unique |
| `DurationFormat.DecimalString` | src/app/Recorder.tsx:154-155 | `toString` gives at least one character, all decimal digits, with no leading zero; it is one character exactly for values below 10, and at most two below 100 |
| `DurationFormat.ParseDecimalString` | src/app/Recorder.tsx:154-155 | reading the decimal text back gives the number |
| `DurationFormat.PadStart` | src/app/Recorder.tsx:154-155 | `padStart` has the larger of the width and the text's length, ends with the text, and every character before it is the pad character |
| `DurationFormat.TwoDigitsField` | src/app/Recorder.tsx:154-155 | below 100, the padded field is exactly two digits and reads back as the number |
| `DurationFormat.FormatRoundTrip` | src/app/Recorder.tsx:148-156 | the label is the decimal hours plus six characters `:mm:ss`, and parsing it gives back the duration |
| `TrackMerge.AddAllContents` | src/app/Recorder.tsx:123-130 | adding tracks one by one with `addTrack` keeps the stream as a prefix, holds exactly the stream's and the added tracks, and adds no track twice |
| `TrackMerge.AddAllDistinct` | src/app/Recorder.tsx:123-130 | when all tracks are distinct, adding them one by one is plain concatenation |
| `TrackMerge.CompositeContents` | src/app/Recorder.tsx:121-130 | every display track is in the composite; a mic track is in it exactly when a mic stream was obtained and the toggle is on; nothing else is; no track appears twice |
| `TrackMerge.CompositeOrder` | src/app/Recorder.tsx:121-130 | with distinct tracks, the composite is the mic tracks followed by all display tracks |
| `TrackMerge.MicDoesNotReplaceSystemAudio` | src/app/Recorder.tsx:123-130 | a mic audio track and a display audio track are both in the composite |
| `TrackMerge.MergeTracks` | src/app/Recorder.tsx:121-130 | the two `forEach`/`addTrack` loops build exactly the composite track list |
| `TrackMerge.FirstVideo` | src/app/Recorder.tsx:138-141 | `getVideoTracks()[0]` is absent exactly when no track is video; otherwise it is a video track of the stream with no video track before it |
| `Session.StatusGraph` | src/app/Recorder.tsx:169-296 | the controls allow only the session's status graph: idle to acquiring_media, then idle or recording; recording and paused to each other; either to stopped; stopped to idle. Where pause, resume or stop can fire, the guarded `recorder.current?.` calls find a recorder |
| `Session.Init` | src/app/Recorder.tsx:42-55 | the initial state is idle, with duration 0, the mic off and an empty URL; the error view is shown exactly when capture is unsupported; the invariant holds |
| `Session.Step` | src/app/Recorder.tsx:57-146 | every enabled event keeps the invariant: no recorder and status idle under the error view; a recorder and a stream while recording or paused; duration 0 otherwise |
| `Session.RunPreservesInv` | src/app/Recorder.tsx:42-146 | every state reached from an invariant state by enabled events satisfies the invariant |
| `Session.DurationChanges` | src/app/Recorder.tsx:57-76 | the duration grows only on a tick while recording, and then by exactly 1; only stop lowers it, and stop sets it to 0 |
| `Session.TicksAccumulate` | src/app/Recorder.tsx:57-63 | n ticks while recording add n to the duration and change nothing else; in any other status they change nothing |
| `Session.PauseWaitResume` | src/app/Recorder.tsx:78-86 | pause, any number of ticks, then resume gives back the same state, duration included; only the engine's pause and resume calls are added |
| `Session.StartAcquires` | src/app/Recorder.tsx:88-89 | start first sets the status to acquiring_media and changes nothing else |
| `Session.DisplayDeniedReturnsToIdle` | src/app/Recorder.tsx:101-119 | when the display grant is denied, start ends in exactly the state it began in: no recorder is created or started, whatever the mic outcome |
| `Session.DisplayGrantedRecords` | src/app/Recorder.tsx:121-145 | a granted display records whatever the mic outcome: the recorder is created on the composite tracks and started, the display stream is held, and the status becomes recording |
| `Session.MicDeniedRecordsDisplayOnly` | src/app/Recorder.tsx:91-130 | a denied mic does not abort start; the recorder is created on the display tracks alone |
| `Session.PauseResumeStatus` | src/app/Recorder.tsx:78-86 | pause makes the status paused and resume makes it recording; each adds its one engine call and changes nothing else |
| `Session.StopSnapshotsDuration` | src/app/Recorder.tsx:65-76 | stop makes the status stopped and the duration 0; it asks the engine to stop and queues a correction of the duration read before the reset, times 1000 |
| `Session.RecorderStoppedFinalizes` | src/app/Recorder.tsx:66-73 | the stop callback calls the correction with the queued milliseconds, stops exactly the tracks of the stream queued with it, shows the corrected URL, and leaves status and duration alone |
| `Session.MicTracksNeverStopped` | src/app/Recorder.tsx:121-144 | with the toggle on and the mic granted, the mic tracks are recorded; after stop and its callback, only the display tracks have been stopped, and a mic track that is not a display track never is |
| `Session.RestartOnlyResetsStatus` | src/app/Recorder.tsx:289-290 | restart changes only the status, to idle; the URL is kept, and the duration is already 0 |
| `Session.FiveSecondSession` | src/app/Recorder.tsx:57-76 | a session with the mic off and five ticks sends 5000 ms to the correction, ends stopped at duration 0, and stops exactly the display tracks |
| `RecorderComponent.Recorder.constructor` | src/app/Recorder.tsx:42-55 | the component's fields start as the initial session state |
| `RecorderComponent.Recorder.ToggleMic` | src/app/Recorder.tsx:186-187 | the checkbox flips `useMic` and nothing else |
| `RecorderComponent.Recorder.StartRecording` | src/app/Recorder.tsx:88-89 | the status becomes acquiring_media |
| `RecorderComponent.Recorder.MediaAcquired` | src/app/Recorder.tsx:91-145 | the new state is the machine's step on the two capture outcomes; the status becomes idle on a display denial and recording otherwise |
| `RecorderComponent.Recorder.PauseRecording` | src/app/Recorder.tsx:78-81 | the status becomes paused, the duration is unchanged, and the state is the machine's step |
| `RecorderComponent.Recorder.ResumeRecording` | src/app/Recorder.tsx:83-86 | the status becomes recording, the duration is unchanged, and the state is the machine's step |
| `RecorderComponent.Recorder.StopRecording` | src/app/Recorder.tsx:65-76 | the status becomes stopped and the duration 0; the queued callback holds the old duration times 1000 and the old stream |
| `RecorderComponent.Recorder.OnRecorderStopped` | src/app/Recorder.tsx:66-73 | the correction is called with the oldest queued milliseconds, and the URL is set |
| `RecorderComponent.Recorder.Restart` | src/app/Recorder.tsx:289-290 | the status becomes idle; the duration is 0 and the URL is unchanged |
| `RecorderComponent.Recorder.Tick` | src/app/Recorder.tsx:57-63 | the duration grows by 1 when recording and stays the same otherwise |
| `Clock.Initial` | src/app/timer.ts:2-3 | `time` starts at 0, no interval is live, nothing has been posted, and the invariant holds |
| `Clock.HandleMessage` | src/app/timer.ts:4-18 | the handler keeps the handle invariant and posts nothing |
| `Clock.TickInterval` | src/app/timer.ts:10-13 | a tick adds exactly 1 to `time` and posts the new value |
| `Clock.OffResets` | src/app/timer.ts:5-8 | "off" clears the current interval, so it is no longer live, and resets `time` to 0 |
| `Clock.PauseKeepsTime` | src/app/timer.ts:15-17 | "pause" clears the current interval and leaves `time` unchanged |
| `Clock.OnStartsInterval` | src/app/timer.ts:9-14 | "on" makes a fresh handle live, stores it in `timerInterval`, and leaves `time` unchanged |
| `Clock.UnknownTurnIgnored` | src/app/timer.ts:4-18 | any turn other than "on", "off" or "pause" changes nothing |
| `Clock.PauseThenOnContinues` | src/app/timer.ts:9-17 | after "pause" then "on", `time` is the paused value, and the next post is that value plus 1 |
| `Clock.OffThenOnPostsOne` | src/app/timer.ts:5-13 | after "off" then "on", the first interval to fire posts 1 |
| `Clock.SecondOnLeaksInterval` | src/app/timer.ts:9-17 | a second "on" overwrites `timerInterval` without clearing the first interval; both stay live, and a later "pause" clears only the second |
| `Clock.TicksPostConsecutive` | src/app/timer.ts:10-13 | with no message between, ticks post consecutive integers that continue from `time`, and `time` grows by the number of ticks |
| `Clock.ClockWorker.constructor` | src/app/timer.ts:2-3 | the worker starts in the initial state |
| `Clock.ClockWorker.OnMessage` | src/app/timer.ts:4-18 | the worker's new state is the handler's result on the turn |
| `Clock.ClockWorker.Tick` | src/app/timer.ts:10-13 | `time` grows by 1 and the new value is appended to the posts |
| `WorkerScript.IndexOf` | src/app/timer.ts:22 | `indexOf` gives the first position of the character, or -1 exactly when it is absent |
| `WorkerScript.LastIndexOf` | src/app/timer.ts:22 | `lastIndexOf` gives the last position of the character, or -1 exactly when it is absent |
| `WorkerScript.Substring` | src/app/timer.ts:22 | `substring` with in-range bounds is the slice between them, in either order |
| `WorkerScript.BodyBetweenBraces` | src/app/timer.ts:21-22 | when the first "{" comes before the last "}", the result is the text strictly between them, of length lastIndexOf - indexOf - 1 |
| `WorkerScript.ExtractWrappedBody` | src/app/timer.ts:21-22 | a header with no "{", then a body in braces, then a trailer with no "}": the result is exactly the body, even if the body holds braces of its own |
| `WorkerScript.NoBracesGivesEmpty` | src/app/timer.ts:22 | text with no braces gives the empty string |
| `WorkerScript.NoOpeningBrace` | src/app/timer.ts:22 | with a "}" but no "{", the result is everything before the last "}" |
| `WorkerScript.BracesOutOfOrder` | src/app/timer.ts:22 | when the first "{" comes after the last "}", `substring` swaps its bounds, and the result runs from the last "}" through the first "{" |

## Left out

- JSX rendering, class names and styling are not modelled, nor is the
  "paused" square's look. `src/app/Error.tsx` and `src/app/page.tsx` are
  presentation only and are not part of this model. The view counts only
  through `Session.Enabled`: it decides which control is shown in which
  status.
- Browser capture APIs (`getUserMedia`, `getDisplayMedia`, `MediaStream`,
  track `stop`) are foreign calls. Their outcomes are inputs, and tracks are
  abstract values. The constraint hints passed to `getDisplayMedia` are
  constants that affect nothing here: 4096×2160, 30 frames per second, echo
  cancellation, noise suppression and 44100 Hz. RecordRTC's `mimeType` is
  left for the same reason.
- The order of `getTracks()` is host-defined. The model takes track lists
  in the order the grant gives them.
- RecordRTC and fix-webm-duration are opaque. Only the calls made into them
  and their arguments are recorded. `getBlob()`, the blob itself, `Blob`
  and `URL.createObjectURL` are left out. The URL arrives as an input.
- `OnRecorderStopped` covers two callbacks in one step: RecordRTC's stop
  callback and fix-webm-duration's callback. The model does not order the
  URL being set against the track stops.
- The `ended` listener on the display video track is left out. Its
  registration is recorded (`endWatched`, via `TrackMerge.FirstVideo`), but
  the stop it triggers is not. That listener holds the `stopRecording` of
  the render where start ran, with that render's `duration` (0) and that
  render's `stream`. The stream is unset in the first session. After that it
  is the previous session's display stream, because nothing clears it. Such
  a stop would stop the old tracks again and leave the new display tracks
  running. Modelling this would need React's closure semantics.
- React re-renders are not modelled. The tick effect makes a new interval
  each time `status` or `duration` changes, and the model folds that into
  one `Tick` step that has effect only while recording. Real time,
  `setInterval` and `clearInterval` scheduling are replaced by explicit
  ticks.
- Web Worker messaging is left out. The worker is modelled by its handler,
  and `postMessage` appends to a `posted` log.
- The worker script's `Blob` and object URL (timer.ts:24-25) are left out.
  The function's source text is an input to `ExtractBody`.
- `console.log` on a denied microphone is left out.
- `OnRecorderStopped` assumes the engine's stop callbacks arrive in the
  order the stops were made. It always takes the oldest pending one. Two
  sessions' recorders finishing out of order are not modelled.
- WorkerScript counts Dafny characters. JavaScript's `indexOf`,
  `lastIndexOf` and `substring` count UTF-16 code units. The extracted text
  is the same either way. The length stated in `BodyBetweenBraces` differs
  when the text holds characters outside the Basic Multilingual Plane.
- JavaScript numbers are 64-bit floating point. Durations, `time` and
  handles are unbounded naturals, because the counts here stay far below
  2^53.
- The commented-out code at the top of `Recorder.tsx` (lines 7-41) is left
  out.
- Transcoding is not modelled: neither `Recorder.tsx` nor `timer.ts` performs any.
