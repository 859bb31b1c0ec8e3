# Interview practice client: session controller model

This project models the core of a practice-interview web client in Dafny. A
user loads a reference article, then talks with a remote assistant for a
fixed number of seconds. The user can type, or hold Space to record speech
that a remote service transcribes. Replies can be spoken aloud through one
playback slot.

The model has four parts, one module per source file:

- `InterviewApp` (`app/welcome/app.tsx`): the controller `SystemDesignInterviewApp`.
  It is the class `Interview`, with one field per modelled state hook, plus
  `audios`, the audio elements created for playback. It has one method per
  handler: the countdown tick, the recording counter, the Space
  key handlers, start/stop recording, the transcription outcome, sending a
  turn, loading a session, and single-slot playback. Every answer from the
  remote services (`/start`, `/chat`, `/stt`, `/tts`) and from the host
  (microphone permission, codec support, recorded data) is a parameter of
  the method that awaits it. A handler that would start playback returns the
  text to speak. The caller then calls `PlayAudio` with the speech service's
  answer. Pure specification functions carry the properties:
  `CountdownStep`/`Ticks` for the timer, `AfterSend`/`AfterTurns` for the
  log, and `PlayingCount` for the playback slot. Lemmas over them prove the
  properties.
- `NewChat` (`app/welcome/components/newChat.tsx`): the new-session form.
  It is the class `NewChatModal`, with `customUrl` and `selectedDuration`.
  The `onLoadBlog`/`onClose` callbacks are modelled as the values its
  methods return.
- `DurationFormat` (`app/welcome/components/audioVisualizerRecorder.tsx`):
  the `m:ss` recording label, with a parser that reads it back.
- `Text`: `String.prototype.trim` of ECMAScript (ECMA-262, section 22.1.3.32),
  over the WhiteSpace and LineTerminator code points of sections 12.2 and
  12.3. Both the send handler and the form use it as their guard.
  `Messages` holds the `ChatMessage` record of `app/types/types.ts`, without
  `id` and `timestamp`. `Wrappers` holds `Option`.

The main invariant is `Interview.Valid()`:
- A recorder is kept exactly while recording, and it holds the stream.
- The recording counter is 0 whenever no recording runs.
- Only non-empty chunks are kept.
- An ended interview is inactive and has 0 seconds left.
- Any playing audio element is the one in the slot. By `SlotExclusive`,
  this means at most one element plays.

`Valid()` is the conjunction of `CaptureValid()`, `TimerValid()` and
`PlaybackValid()`, each of which reads only the fields it constrains.

Where the code departs from the intended design of such a controller, the model follows the code:
- Timer expiry does not stop a running recording.
- Starting a recording is guarded only by the keydown handler's check.
- Interrupting a reply with push-to-talk loses the recording. While the slot
  holds an element, the cleanup effect stops the new recorder as soon as it
  starts, and a playback that starts or ends during a recording stops it too
  (see the cleanup-effect entry under "## Left out").
- An empty recording is still sent to the speech service: `AudioRecorded`
  posts whatever blob it is handed.
- `/start` never checks the HTTP status. Any non-null JSON body therefore
  counts as a success and sets the session id. A failed fetch, a body that is
  not JSON, or a `null` body (whose destructuring at `app.tsx:310` throws)
  produces the failure notice, and in that case the previous session id is
  kept.
- When synthesis fails or the text is empty, the paused previous element
  stays in the slot.
- Sending is not refused by the controller when no session is active. The
  typed-input area, with its Enter key and send button, is rendered only
  while the interview is active and not ended (`app.tsx:541`). The send
  button itself is disabled only for blank text or while recording
  (`app.tsx:586`), whatever the session. Push-to-talk still submits without
  a session: the keydown check (`app.tsx:93`) tests only audio mode and "not
  ended", and the audio-mode toggle (`app.tsx:466`) is always shown. A
  transcription then goes to `/chat` with whatever session id is current,
  which is the empty one before any session is loaded.

## Model

| member | source | states |
|---|---|---|
| `Text.Trim` | app/welcome/app.tsx:226 | `trim()` never lengthens its input, and what it leaves neither starts nor ends with whitespace |
| `Text.Blank` | app/welcome/app.tsx:226 | the `trim()` guard fails exactly on strings made only of ECMAScript whitespace, the empty string included |
| `Text.TrimShape` | app/welcome/components/newChat.tsx:27 | the trimmed text is a contiguous part of the input that neither starts nor ends with whitespace, and everything cut off on either side is whitespace |
| `DurationFormat.DurationLabel` | app/welcome/components/audioVisualizerRecorder.tsx:22-29 | a label exists exactly when the visualiser is active and a duration was supplied, and it is that duration's `m:ss` text |
| `DurationFormat.FormatDuration` | app/welcome/components/audioVisualizerRecorder.tsx:27 | the label is a run of digits, a colon and exactly two digits |
| `DurationFormat.NatToStringDigits` | app/welcome/components/audioVisualizerRecorder.tsx:27 | `toString` of a non-negative integer is a non-empty digit string, one digit long exactly below 10, that reads back as the number and has no leading zero except for 0 itself |
| `DurationFormat.PadStartShape` | app/welcome/components/audioVisualizerRecorder.tsx:27 | `padStart` puts exactly enough pad characters in front to reach the width, and leaves a long-enough string alone |
| `DurationFormat.SecondsField` | app/welcome/components/audioVisualizerRecorder.tsx:27 | the seconds text is always two digits, starts with '0' exactly when the remainder is below 10, and reads back as `d % 60` |
| `DurationFormat.FormatFields` | app/welcome/components/audioVisualizerRecorder.tsx:27 | the label is the minutes `d / 60`, a colon and the two-digit seconds `d % 60`, with the seconds in 0..59 |
| `DurationFormat.FormatRoundTrip` | app/welcome/components/audioVisualizerRecorder.tsx:27 | reading the label back gives `minutes * 60 + seconds == d` |
| `DurationFormat.FormatInjective` | app/welcome/components/audioVisualizerRecorder.tsx:27 | two different durations never show the same label |
| `NewChat.OptionValues` | app/welcome/components/newChat.tsx:9-13 | the values offered are exactly 300, 600 and 900 seconds |
| `NewChat.FindLabel` | app/welcome/components/newChat.tsx:83 | `find` returns nothing exactly when no option has the value, else the label of the first option that has it |
| `NewChat.NewChatModal.constructor` | app/welcome/components/newChat.tsx:21-22 | the form starts with an empty URL and 600 seconds selected, which is an offered option |
| `NewChat.NewChatModal.SelectDuration` | app/welcome/components/newChat.tsx:64-69 | clicking an option selects exactly its value, so the selection stays among the offered options; the URL is kept |
| `NewChat.NewChatModal.EditCustomUrl` | app/welcome/components/newChat.tsx:95 | typing replaces the URL, keeps the selected duration and preserves `Valid()` |
| `NewChat.NewChatModal.LoadDisabled` | app/welcome/components/newChat.tsx:100 | the Load Blog button is disabled exactly when the URL is all whitespace |
| `NewChat.NewChatModal.SelectedLabel` | app/welcome/components/newChat.tsx:83 | the "Selected" label is always found, and it is the label of the selected option |
| `NewChat.NewChatModal.LoadCustom` | app/welcome/components/newChat.tsx:26-32 | a blank URL does nothing: no callback, no close, URL kept. Otherwise `onLoadBlog("Custom Blog", url, selectedDuration)` runs with the untrimmed URL, the URL is cleared and the form closes. The guard refuses exactly when the button is disabled, and `Valid()` is preserved |
| `NewChat.NewChatModal.LoadPreselected` | app/welcome/components/newChat.tsx:34-37 | passes exactly the article's title and URL and the current duration, then closes |
| `InterviewApp.CountdownStep` | app/welcome/app.tsx:52-61 | without a scheduled interval nothing changes. Otherwise exactly one second comes off, never below 0. Reaching 0 makes the interview inactive and ended. Above 0 it stays active |
| `InterviewApp.TicksBeforeEnd` | app/welcome/app.tsx:52-62 | for k < D ticks from a fresh session of D seconds, the interview is active, not ended, with D - k seconds left |
| `InterviewApp.TicksWhenStopped` | app/welcome/app.tsx:52 | once no interval is scheduled, any number of ticks changes nothing |
| `InterviewApp.TicksToEnd` | app/welcome/app.tsx:49-68 | a session of D > 0 seconds ends after exactly D ticks at 0, inactive and ended, and stays so |
| `InterviewApp.TicksBounded` | app/welcome/app.tsx:54-61 | the remaining time never increases and, from a non-negative start, never goes negative |
| `InterviewApp.UserTurn` | app/welcome/app.tsx:227-234 | the user entry carries the untrimmed text and is marked as a transcription, with audio available, exactly when the text was passed explicitly |
| `InterviewApp.Candidate` | app/welcome/app.tsx:224 | explicitly passed text wins over the input field, even when blank; otherwise the input field is used |
| `InterviewApp.ReplyFor` | app/welcome/app.tsx:258-283 | the assistant entry is the reply with audio available, or the fixed failure text without audio; it is never a transcription |
| `InterviewApp.OpeningLog` | app/welcome/app.tsx:313-339 | a loaded session's log is exactly one assistant entry: the greeting with audio, or the fixed load-failure text without audio |
| `InterviewApp.AfterSend` | app/welcome/app.tsx:223-286 | a blank candidate leaves the log alone. Otherwise the earlier entries are kept in front, followed by exactly the untrimmed user entry and one assistant entry |
| `InterviewApp.TurnsAppend` | app/welcome/app.tsx:236-283 | after N submissions the old log is an unchanged prefix, and exactly two entries were added per non-blank submission, so at most 2N |
| `InterviewApp.TurnsInOrder` | app/welcome/app.tsx:236-283 | each non-blank submission's user entry and reply sit together, after the entries of all earlier submissions, in submission order. This holds for the model, where each reply arrives before the next submission; overlapping sends are left out (see below) |
| `InterviewApp.TurnsAfter` | app/welcome/app.tsx:236-283 | the first of a later run of submissions, when non-blank, puts its two entries right after those of every earlier submission |
| `InterviewApp.TurnsHead` | app/welcome/app.tsx:236-283 | a non-blank first submission puts its user entry and reply directly after the existing log |
| `InterviewApp.SlotExclusive` | app/welcome/app.tsx:344-373 | when every playing element is the one in the slot, at most one element plays |
| `InterviewApp.PauseSlot` | app/welcome/app.tsx:344-346 | when only the slot's element may be playing, pausing it pauses every element, so none plays |
| `InterviewApp.Pause` | app/welcome/app.tsx:344-346 | a paused element is not playing, and pausing leaves a non-playing element as it was |
| `InterviewApp.SpokenReply` | app/welcome/app.tsx:269-271 | playback is requested exactly in audio mode for a non-empty text, and for that text |
| `InterviewApp.TranscriptNotice` | app/welcome/app.tsx:185-202 | the transcript field shows the recognised text, the no-speech notice for empty text, or "Error: " followed by the server's error (default "Failed to transcribe audio") or the thrown error's message |
| `InterviewApp.TranscriptSubmission` | app/welcome/app.tsx:189-197 | a text is submitted exactly when the transcription succeeded with non-empty text, and it is the text shown |
| `InterviewApp.ChunkFilterKeepsBytes` | app/welcome/app.tsx:133-137 | dropping empty chunks loses no bytes: the recording reads as before followed by the new data |
| `InterviewApp.ConcatCovers` | app/welcome/app.tsx:140 | the recorded blob is empty exactly when every chunk is, and is no shorter than any one chunk |
| `InterviewApp.ConcatSplit` | app/welcome/app.tsx:140 | chunks recorded in two stretches give the bytes of the first stretch followed by those of the second |
| `InterviewApp.Interview.constructor` | app/welcome/app.tsx:16-37 | the state hooks' initial values satisfy the controller invariant |
| `InterviewApp.Interview.CountdownTick` | app/welcome/app.tsx:49-68 | the tick fires exactly while active with time left, the timer moves by `CountdownStep`, and nothing else changes |
| `InterviewApp.Interview.RecordingTick` | app/welcome/app.tsx:71-79 | the recording counter goes up by one exactly while recording, and nothing else changes |
| `InterviewApp.Interview.ToggleAudioMode` | app/welcome/app.tsx:466 | flips audio mode and nothing else |
| `InterviewApp.Interview.EditMessage` | app/welcome/app.tsx:570 | replaces the typed text and nothing else |
| `InterviewApp.Interview.StartRecording` | app/welcome/app.tsx:118-153 | when permission is refused nothing changes. When the encoder is refused, the stream stays held and nothing else changes. Otherwise recording runs with the preferred or fallback codec on an empty chunk list, and the transcript is cleared |
| `InterviewApp.Interview.DataAvailable` | app/welcome/app.tsx:133-137 | only non-empty data is appended to the chunks |
| `InterviewApp.Interview.StopRecording` | app/welcome/app.tsx:139-169 | recording always ends and its counter returns to 0 (app.tsx:80). A running recorder first delivers its final data as `DataAvailable` does, then hands `onstop` the concatenated chunks typed with the recorder's own codec, and its stream is released |
| `InterviewApp.Interview.KeyDown` | app/welcome/app.tsx:92-99 | Space starts a recording exactly in audio mode, before the interview ended, when none runs; otherwise nothing changes. A started attempt alerts exactly when it fails. A failed attempt (permission denied, or the recorder refused) keeps the chunks, the counter and the transcript; the stream is held from then on unless permission was denied. A granted one records with the preferred or fallback codec on an empty chunk list and clears the transcript |
| `InterviewApp.Interview.KeyUp` | app/welcome/app.tsx:101-106 | Space stops exactly in audio mode while recording, releasing the stream and recorder; the finished blob is the concatenated chunks, including non-empty final data, typed with the recorder's codec; otherwise nothing changes |
| `InterviewApp.Interview.SendMessage` | app/welcome/app.tsx:223-286 | a blank candidate changes nothing. Otherwise the untrimmed text is sent for the current session id, the log moves by `AfterSend` with the transcription flag set exactly for explicit text, the input is cleared, and playback is requested only for a non-empty reply in audio mode |
| `InterviewApp.Interview.AudioRecorded` | app/welcome/app.tsx:172-181 | the `/stt` form carries the delivered blob unchanged, whether or not it is empty, as `recording.webm`; the transcript field shows "Transcribing..." and nothing else changes |
| `InterviewApp.Interview.TranscriptionArrived` | app/welcome/app.tsx:174-203 | an error or an empty text only sets the notice and sends nothing. A non-empty text is shown and submitted exactly once, as explicit input |
| `InterviewApp.Interview.OpenSession` | app/welcome/app.tsx:290-294 | sets the title and the budget and starts a fresh running countdown, touching neither the log nor the session id |
| `InterviewApp.Interview.LoadBlog` | app/welcome/app.tsx:289-341 | whatever `/start` answers, the title and budget are set and the interview is active and not ended. The log is replaced by `OpeningLog`. The session id is taken only on success |
| `InterviewApp.Interview.PlayAudio` | app/welcome/app.tsx:343-378 | the slot's element is paused before the empty-text check, and no earlier element plays afterwards. Empty text starts nothing, and a failed synthesis alerts. On success exactly one element plays, the new one, and it is in the slot |
| `InterviewApp.Interview.AudioEnded` | app/welcome/app.tsx:370-373 | the finished element is ended, the slot is emptied, and nothing plays |

## Left out

- Network calls and host media APIs (`fetch`, `getUserMedia`, `MediaRecorder`, `Blob`, `Audio`, object URLs, track stopping). Each remote or host answer is a method parameter, and held media is a flag or an element state.
- `URL.revokeObjectURL` on playback end, `alert` and console logging. Alerts appear only as an `alerted` result.
- `PlayAudio`: `audio.play()` (app.tsx:368) returns a promise that the autoplay policy can reject. The rejection is unhandled, so no alert appears and a silent element stays in the slot. The model treats a successful synthesis as playing.
- Timer scheduling. Each tick is an explicit method call. The reset of the recording counter (an effect on `isRecording`) is folded into `StopRecording`.
- The cleanup effect at app.tsx:208-221, and with it effect ordering. Whenever the stream, the recorder or the slot element changes, React runs the cleanup captured in the previous render with the values of that render. That cleanup does three things:
  - it stops the tracks of the stream it captured (app.tsx:210-212);
  - it calls `stop()` on the recorder it captured, if that recorder is still recording (app.tsx:213-215), which makes `onstop` (app.tsx:139-142) hand the chunks gathered so far to `handleAudioRecorded`;
  - it pauses the slot element it captured and empties the slot (app.tsx:216-219).

  When only one of the three changes, the other two captured values are the live ones. These contracts are therefore stronger than the program:
  - `StartRecording` (and `KeyDown`) promises `Playback() == old(Playback())`. In the program, setting the stream runs the cleanup captured with the current slot element, which pauses that element and empties the slot.
  - `StartRecording` (and `KeyDown`) promises a running recorder when the microphone is granted. If the slot held an element A (a reply still playing, or the paused element a failed synthesis leaves behind), the first cleanup's `setActiveAudio(null)` causes one more commit. That commit's cleanup was captured with the new stream, the new recorder and A, so it stops both at once. The recording is cut off, and its chunks so far are sent for transcription, while `isRecording` stays true.
  - `PlayAudio` promises that the new element plays and holds the slot. In the program, if the slot held A, committing B runs A's cleanup, whose `setActiveAudio(null)` empties the slot. The next commit then runs B's cleanup, which pauses B at once.
  - `PlayAudio` promises `Capture() == old(Capture())`. A successful synthesis during a recording commits `setActiveAudio(audio)` (app.tsx:367). That runs the cleanup captured with the live stream and recorder, which stops both. `onstop` then sends the partial recording for transcription while `isRecording` stays true. The replies started by `LoadBlog`, `SendMessage` and `TranscriptionArrived` go through `PlayAudio`.
  - `AudioEnded` promises `Capture() == old(Capture())`. An element that ends during a recording empties the slot (app.tsx:372), and that commit's cleanup stops the live stream and recorder in the same way.
  - `StopRecording` (and `KeyUp`) promises, after either early stop above, to release the recorder and yield the concatenated blob. In the program, `stopRecording` (app.tsx:156-169) then finds the recorder no longer recording. It only clears `isRecording`; the blob was already delivered by the cleanup's `stop()`.
- Asynchronous interleaving. Each handler runs as one atomic step. Not modelled:
  - the stale closures: the recorder's `onstop` uses the handlers of the render that started it;
  - replies that arrive after a new session or after expiry;
  - repeated Space keydowns while `getUserMedia` is pending, which would start several recordings;
  - overlapping sends. The send button (app.tsx:586) stays enabled while `/chat` is pending, so a second submission can go out before the first reply arrives. The log can then read user1, user2, reply1, reply2. `TurnsInOrder` holds only when each reply arrives before the next submission.
- `StartRecording`: a failure of `recorder.start` after the chunk list was reset is treated like the constructor refusing the codec.
- Message ids and timestamps, the random bar heights of the visualiser, rendering, colours, the timer colour thresholds, and the sidebar and modal open state. `formatTime` from `./utils/time` is not part of this model.
- Absent JSON fields (`message` or `sessionId` undefined) are not distinguished from strings. A thrown value that is not an `Error` ("An unknown error occurred.") is an `SttThrown` whose reason is that text.
- A recorder that stops by itself (its state leaving 'recording' without `stop`) is not modelled.
