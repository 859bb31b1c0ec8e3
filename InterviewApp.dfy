/** The session and interaction controller of the interview client
    (`SystemDesignInterviewApp`): a countdown over a client-declared time
    budget, push-to-talk capture, the turn exchange with the conversation
    backend and a single playback slot for spoken replies.

    Every answer of a remote service (`/start`, `/chat`, `/stt`, `/tts`) and
    of the host (microphone permission, codec support, recorded data) is a
    parameter of the handler that awaits it. A handler that would start
    playback returns the text to speak; the caller then runs `PlayAudio`
    with the speech service's answer. */
module InterviewApp {

  import opened Wrappers
  import opened Text
  import opened Messages

  const DefaultTitle: string := "New conversation"
  const LoadFailureText: string := "Failed to load the blog. Please try again later."
  const ChatFailureText: string := "Failed to get a response from the server. Please try again later."
  const TranscribingText: string := "Transcribing..."
  const NoSpeechText: string := "Could not detect any speech. Please try again."
  const TranscribeFailedText: string := "Failed to transcribe audio"
  const ErrorPrefix: string := "Error: "
  const SpaceKey: string := "Space"
  const OpusMimeType: string := "audio/webm;codecs=opus"
  const FallbackMimeType: string := "audio/webm"

  type Blob = seq<bv8>

  /** What `/start` yields. Its HTTP status is never inspected, so any
      non-null JSON body counts as `Started`; `StartFailed` is a failed
      fetch, a body that is not JSON, or a `null` body, whose destructuring
      throws. */
  datatype StartReply = Started(sessionId: string, message: string) | StartFailed

  /** What `/chat/{sessionId}` yields; a non-2xx status is a failure. */
  datatype ChatReply = Replied(message: string) | ChatFailed

  /** What `/stt` yields: the recognised text (`result.text || ""`), a
      non-2xx answer with its `error` field ("" when absent), or a thrown
      error with its message. */
  datatype SttReply = Transcribed(text: string) | SttRejected(error: string) | SttThrown(reason: string)

  /** How the host answers a capture attempt: permission refused, stream
      granted but the encoder refused, or both granted. */
  datatype MicAnswer = MicDenied | RecorderRefused | MicGranted

  /** The state of one audio element created for playback. */
  datatype AudioState = Playing | Paused | Ended

  datatype MediaRecorder = MediaRecorder(mimeType: string)
  datatype AudioBlob = AudioBlob(bytes: Blob, mimeType: string)

  /** The bodies of the requests the controller sends. */
  datatype StartRequest = StartRequest(articleLink: string, timeLimit: int)
  datatype ChatRequest = ChatRequest(sessionId: string, userMessage: string)
  /** The multipart form posted to `/stt`: the blob under the field `audio`,
      with the file name below. */
  datatype SttRequest = SttRequest(audio: AudioBlob, fileName: string)

  const RecordingFileName: string := "recording.webm"

  // ---------------------------------------------------------------------
  // Countdown (app.tsx:49-68)

  datatype Countdown = Countdown(remaining: int, active: bool, ended: bool)

  /** The one-second interval exists only while the interview is active and
      time remains. */
  predicate Ticking(c: Countdown) {
    c.active && c.remaining > 0
  }

  /** One second of the countdown: the updater applied to `timeRemaining`,
      or nothing when no interval is scheduled. A tick takes exactly one
      second off and ends the interview when it reaches zero. */
  function CountdownStep(c: Countdown): (r: Countdown)
    ensures !Ticking(c) ==> r == c
    ensures Ticking(c) ==> 0 <= r.remaining == c.remaining - 1
    ensures Ticking(c) && r.remaining == 0 ==> !r.active && r.ended
    ensures Ticking(c) && r.remaining > 0 ==> r.active && r.ended == c.ended
  {
    if !Ticking(c) then c
    else if c.remaining <= 1 then Countdown(0, false, true)
    else c.(remaining := c.remaining - 1)
  }

  function Ticks(c: Countdown, n: nat): Countdown
    decreases n
  {
    if n == 0 then c else Ticks(CountdownStep(c), n - 1)
  }

  /** Before the budget is used up the interview stays active and shows the
      seconds left. */
  lemma {:induction false} TicksBeforeEnd(d: int, k: nat)
    requires k < d
    ensures Ticks(Countdown(d, true, false), k) == Countdown(d - k, true, false)
  {
    if k > 0 {
      assert CountdownStep(Countdown(d, true, false)) == Countdown(d - 1, true, false);
      TicksBeforeEnd(d - 1, k - 1);
    }
  }

  /** Once no interval is scheduled, ticks change nothing. */
  lemma {:induction false} TicksWhenStopped(c: Countdown, n: nat)
    requires !Ticking(c)
    ensures Ticks(c, n) == c
  {
    if n > 0 {
      TicksWhenStopped(c, n - 1);
    }
  }

  /** A session of D > 0 seconds ends after exactly D ticks, at 0, inactive
      and ended, and stays so under further ticks. */
  lemma TicksToEnd(d: int, extra: nat)
    requires d > 0
    ensures Ticks(Countdown(d, true, false), d) == Countdown(0, false, true)
    ensures Ticks(Countdown(d, true, false), d + extra) == Countdown(0, false, true)
  {
    TicksBeforeEnd(d, d - 1);
    TicksSplit(Countdown(d, true, false), d - 1, 1);
    TicksSplit(Countdown(d, true, false), d, extra);
    TicksWhenStopped(Countdown(0, false, true), extra);
  }

  lemma {:induction false} TicksSplit(c: Countdown, m: nat, n: nat)
    ensures Ticks(c, m + n) == Ticks(Ticks(c, m), n)
    decreases m
  {
    if m > 0 {
      TicksSplit(CountdownStep(c), m - 1, n);
    }
  }

  /** The remaining time never increases and, from a non-negative start,
      never goes negative, however many ticks arrive. */
  lemma {:induction false} TicksBounded(c: Countdown, n: nat)
    requires c.remaining >= 0
    ensures 0 <= Ticks(c, n).remaining <= c.remaining
    decreases n
  {
    if n > 0 {
      TicksBounded(CountdownStep(c), n - 1);
    }
  }

  // ---------------------------------------------------------------------
  // The message log

  /** The user's entry; `!!messageToSend` marks a transcribed turn. */
  function UserTurn(text: string, explicit: bool): (m: Message)
    ensures m.sender == User && m.text == text
    ensures m.isTranscription == explicit && m.audioAvailable == explicit
  {
    Message(User, text, explicit, explicit)
  }

  /** The assistant's entry for a chat answer. */
  function ReplyFor(chat: ChatReply): (m: Message)
    ensures m.sender == SDMate && !m.isTranscription
    ensures m.audioAvailable <==> chat.Replied?
    ensures m.text == if chat.Replied? then chat.message else ChatFailureText
  {
    match chat
    case Replied(text) => Message(SDMate, text, false, true)
    case ChatFailed => Message(SDMate, ChatFailureText, false, false)
  }

  /** The log a session starts with: the assistant's greeting, or the fixed
      failure notice. */
  function OpeningLog(start: StartReply): (log: seq<Message>)
    ensures |log| == 1 && log[0].sender == SDMate && !log[0].isTranscription
    ensures log[0].audioAvailable <==> start.Started?
    ensures log[0].text == if start.Started? then start.message else LoadFailureText
  {
    match start
    case Started(_, greeting) => [Message(SDMate, greeting, false, true)]
    case StartFailed => [Message(SDMate, LoadFailureText, false, false)]
  }

  /** `messageToSend ?? messageInput`: text passed explicitly wins over the
      input field, even when it is blank. */
  function Candidate(explicit: Option<string>, input: string): (r: string)
    ensures explicit.Some? ==> r == explicit.value
    ensures explicit.None? ==> r == input
  {
    match explicit
    case Some(text) => text
    case None => input
  }

  /** The log after one submission: unchanged for a blank candidate,
      otherwise the untrimmed user text and then exactly one assistant
      entry appended after everything that was there. */
  function AfterSend(log: seq<Message>, text: string, explicit: bool, chat: ChatReply): (r: seq<Message>)
    ensures Blank(text) ==> r == log
    ensures !Blank(text) ==> (|r| == |log| + 2 && r[..|log|] == log
                              && r[|log|] == UserTurn(text, explicit) && r[|log| + 1] == ReplyFor(chat))
  {
    if Blank(text) then log else log + [UserTurn(text, explicit), ReplyFor(chat)]
  }

  /** One submission attempt, as the log sees it. */
  datatype Turn = Turn(text: string, explicit: bool, chat: ChatReply)

  function AfterTurns(log: seq<Message>, turns: seq<Turn>): seq<Message>
    decreases |turns|
  {
    if turns == [] then log
    else AfterTurns(AfterSend(log, turns[0].text, turns[0].explicit, turns[0].chat), turns[1..])
  }

  function NonBlankCount(turns: seq<Turn>): nat {
    if turns == [] then 0 else (if Blank(turns[0].text) then 0 else 1) + NonBlankCount(turns[1..])
  }

  /** After N submissions the log holds what it held before, untouched and
      in front, followed by exactly two entries per non-blank submission:
      at most 2N new entries. */
  lemma {:induction false} TurnsAppend(log: seq<Message>, turns: seq<Turn>)
    ensures var r := AfterTurns(log, turns);
      && |r| == |log| + 2 * NonBlankCount(turns) <= |log| + 2 * |turns|
      && r[..|log|] == log
    decreases |turns|
  {
    if turns != [] {
      var next := AfterSend(log, turns[0].text, turns[0].explicit, turns[0].chat);
      TurnsAppend(next, turns[1..]);
      var r := AfterTurns(next, turns[1..]);
      assert r[..|log|] == r[..|next|][..|log|];
    }
  }

  lemma {:induction false} TurnsSplit(log: seq<Message>, a: seq<Turn>, b: seq<Turn>)
    ensures AfterTurns(log, a + b) == AfterTurns(AfterTurns(log, a), b)
    decreases |a|
  {
    if a == [] {
      assert a + b == b;
    } else {
      assert (a + b)[0] == a[0];
      assert (a + b)[1..] == a[1..] + b;
      TurnsSplit(AfterSend(log, a[0].text, a[0].explicit, a[0].chat), a[1..], b);
    }
  }

  /** The user entries of a run of submissions appear in submission order,
      each directly followed by its reply: the entries of the k-th
      submission sit after those of all earlier non-blank submissions. */
  lemma TurnsInOrder(log: seq<Message>, turns: seq<Turn>, k: nat)
    requires k < |turns| && !Blank(turns[k].text)
    ensures var r := AfterTurns(log, turns);
      var at := |log| + 2 * NonBlankCount(turns[..k]);
      && at + 1 < |r|
      && r[at] == UserTurn(turns[k].text, turns[k].explicit)
      && r[at + 1] == ReplyFor(turns[k].chat)
  {
    assert turns[..k] + turns[k..] == turns;
    assert turns[k..][0] == turns[k];
    TurnsAfter(log, turns[..k], turns[k..]);
  }

  /** The entries of the first of the later submissions follow those of
      all the earlier ones. */
  lemma TurnsAfter(log: seq<Message>, earlier: seq<Turn>, later: seq<Turn>)
    requires later != [] && !Blank(later[0].text)
    ensures var r := AfterTurns(log, earlier + later);
      var at := |log| + 2 * NonBlankCount(earlier);
      && at + 1 < |r|
      && r[at] == UserTurn(later[0].text, later[0].explicit)
      && r[at + 1] == ReplyFor(later[0].chat)
  {
    TurnsSplit(log, earlier, later);
    TurnsAppend(log, earlier);
    TurnsHead(AfterTurns(log, earlier), later);
  }

  /** A non-blank first submission puts its two entries right after the log. */
  lemma TurnsHead(log: seq<Message>, turns: seq<Turn>)
    requires turns != [] && !Blank(turns[0].text)
    ensures var r := AfterTurns(log, turns);
      && |log| + 1 < |r|
      && r[|log|] == UserTurn(turns[0].text, turns[0].explicit)
      && r[|log| + 1] == ReplyFor(turns[0].chat)
  {
    var mid := AfterSend(log, turns[0].text, turns[0].explicit, turns[0].chat);
    TurnsAppend(mid, turns[1..]);
    PrefixEntries(AfterTurns(mid, turns[1..]), mid, |log|);
  }

  lemma PrefixEntries(r: seq<Message>, m: seq<Message>, j: nat)
    requires j + 1 < |m| <= |r| && r[..|m|] == m
    ensures r[j] == m[j] && r[j + 1] == m[j + 1]
  {
    assert r[j] == r[..|m|][j];
    assert r[j + 1] == r[..|m|][j + 1];
  }

  // ---------------------------------------------------------------------
  // The playback slot

  function PlayingCount(audios: seq<AudioState>): nat {
    if audios == [] then 0
    else PlayingCount(audios[..|audios| - 1]) + (if audios[|audios| - 1] == Playing then 1 else 0)
  }

  /** The slot names a created element, and any element playing is in it. */
  ghost predicate SlotHeld(audios: seq<AudioState>, slot: Option<nat>) {
    && (slot.Some? ==> slot.value < |audios|)
    && (forall i :: 0 <= i < |audios| && audios[i] == Playing ==> slot == Some(i))
  }

  /** When every playing element is the one in the slot, at most one
      element plays, and exactly one when the slot's element plays. */
  lemma {:induction false} SlotExclusive(audios: seq<AudioState>, slot: Option<nat>)
    requires forall i :: 0 <= i < |audios| && audios[i] == Playing ==> slot == Some(i)
    ensures PlayingCount(audios) == if slot.Some? && slot.value < |audios| && audios[slot.value] == Playing then 1 else 0
    ensures PlayingCount(audios) <= 1
  {
    if audios != [] {
      var p := audios[..|audios| - 1];
      assert forall i :: 0 <= i < |p| ==> p[i] == audios[i];
      SlotExclusive(p, slot);
    }
  }

  /** `audio.pause()` */
  function Pause(a: AudioState): (r: AudioState)
    ensures r != Playing
    ensures a != Playing ==> r == a
  {
    if a == Playing then Paused else a
  }

  /** `activeAudio.pause()` in a state where only the slot's element may
      play: every element ends up paused as by `Pause`, so none plays. */
  function PauseSlot(audios: seq<AudioState>, slot: Option<nat>): (r: seq<AudioState>)
    requires SlotHeld(audios, slot)
    ensures |r| == |audios|
    ensures forall i :: 0 <= i < |r| ==> r[i] == Pause(audios[i]) && r[i] != Playing
  {
    if slot.Some? then audios[slot.value := Pause(audios[slot.value])] else audios
  }

  /** What playback a fresh assistant text triggers: only in audio mode and
      only for a non-empty text. */
  function SpokenReply(isAudioMode: bool, text: string): (r: Option<string>)
    ensures r.Some? <==> isAudioMode && text != ""
    ensures r.Some? ==> r.value == text
  {
    if isAudioMode && text != "" then Some(text) else None
  }

  // ---------------------------------------------------------------------
  // Transcription outcome (app.tsx:172-204)

  /** The text a finished transcription leaves in the transcript field. */
  function TranscriptNotice(stt: SttReply): (r: string)
    ensures stt.Transcribed? && stt.text != "" ==> r == stt.text
    ensures stt == Transcribed("") ==> r == NoSpeechText
    ensures stt.SttRejected? ==> r == ErrorPrefix + (if stt.error == "" then TranscribeFailedText else stt.error)
    ensures stt.SttThrown? ==> r == ErrorPrefix + stt.reason
  {
    match stt
    case Transcribed(text) => if text != "" then text else NoSpeechText
    case SttRejected(error) => ErrorPrefix + (if error != "" then error else TranscribeFailedText)
    case SttThrown(reason) => ErrorPrefix + reason
  }

  /** The explicit text the transcription hands to the send handler, if any:
      only a non-empty recognised text is submitted. */
  function TranscriptSubmission(stt: SttReply): (r: Option<string>)
    ensures r.Some? <==> stt.Transcribed? && stt.text != ""
    ensures r.Some? ==> r.value == stt.text == TranscriptNotice(stt)
  {
    if stt.Transcribed? && stt.text != "" then Some(stt.text) else None
  }

  /** Only non-empty chunks are kept (`if (event.data.size > 0)`). */
  ghost predicate ChunksKept(chunks: seq<Blob>) {
    forall i :: 0 <= i < |chunks| ==> |chunks[i]| > 0
  }

  /** `new Blob(audioChunks, ...)`: the chunks' bytes in arrival order. */
  function Concat(chunks: seq<Blob>): Blob {
    if chunks == [] then [] else Concat(chunks[..|chunks| - 1]) + chunks[|chunks| - 1]
  }

  /** `ondataavailable` keeps a chunk only when it holds data; dropping the
      empty ones loses no bytes: the recording reads as before followed by
      the new data. */
  lemma ChunkFilterKeepsBytes(chunks: seq<Blob>, data: Blob)
    ensures Concat(if |data| > 0 then chunks + [data] else chunks) == Concat(chunks) + data
  {
    if |data| > 0 {
      assert (chunks + [data])[..|chunks|] == chunks;
    } else {
      assert data == [];
    }
  }

  /** The blob is empty exactly when every chunk is, and no shorter than
      any one chunk. */
  lemma {:induction false} ConcatCovers(chunks: seq<Blob>)
    ensures Concat(chunks) == [] <==> forall i :: 0 <= i < |chunks| ==> chunks[i] == []
    ensures forall i :: 0 <= i < |chunks| ==> |chunks[i]| <= |Concat(chunks)|
  {
    if chunks != [] {
      var init := chunks[..|chunks| - 1];
      var last := chunks[|chunks| - 1];
      ConcatCovers(init);
      assert |Concat(chunks)| == |Concat(init)| + |last|;
      assert forall i :: 0 <= i < |init| ==> init[i] == chunks[i];
    }
  }

  /** Chunks recorded in two stretches give the bytes of the first stretch
      followed by those of the second. */
  lemma {:induction false} ConcatSplit(a: seq<Blob>, b: seq<Blob>)
    ensures Concat(a + b) == Concat(a) + Concat(b)
    decreases |b|
  {
    if b == [] {
      assert a + b == a;
    } else {
      var init := b[..|b| - 1];
      assert (a + b)[..|a + b| - 1] == a + init;
      ConcatSplit(a, init);
    }
  }

  // ---------------------------------------------------------------------
  // Views of the controller's state, grouped by concern

  datatype CaptureState = CaptureState(
    isRecording: bool,
    recordingDuration: nat,
    streamHeld: bool,
    mediaRecorder: Option<MediaRecorder>,
    audioChunks: seq<Blob>)

  datatype PlaybackState = PlaybackState(audios: seq<AudioState>, activeAudio: Option<nat>)

  datatype SessionState = SessionState(
    title: string,
    interviewDuration: int,
    sessionId: string,
    chatMessages: seq<Message>)

  datatype InputState = InputState(isAudioMode: bool, messageInput: string, transcriptionText: string)

  class Interview {
    var chatMessages: seq<Message>
    var currentBlogTitle: string
    var isAudioMode: bool
    var isRecording: bool
    var recordingDuration: nat
    var messageInput: string
    var transcriptionText: string
    var currentSessionId: string
    /** `audioStream !== null`: the microphone stream is held. */
    var streamHeld: bool
    /** `mediaRecorder`, kept only while it records. */
    var mediaRecorder: Option<MediaRecorder>
    var audioChunks: seq<Blob>
    /** Every audio element created for playback, in creation order. */
    var audios: seq<AudioState>
    /** `activeAudio`: the index of the element in the slot. */
    var activeAudio: Option<nat>
    var interviewDuration: int
    var timeRemaining: int
    var isInterviewActive: bool
    var isInterviewEnded: bool

    function Timer(): Countdown
      reads this`timeRemaining, this`isInterviewActive, this`isInterviewEnded
    {
      Countdown(timeRemaining, isInterviewActive, isInterviewEnded)
    }

    function Capture(): CaptureState
      reads this`isRecording, this`recordingDuration, this`streamHeld, this`mediaRecorder, this`audioChunks
    {
      CaptureState(isRecording, recordingDuration, streamHeld, mediaRecorder, audioChunks)
    }

    function Playback(): PlaybackState
      reads this`audios, this`activeAudio
    {
      PlaybackState(audios, activeAudio)
    }

    function Session(): SessionState
      reads this`currentBlogTitle, this`interviewDuration, this`currentSessionId, this`chatMessages
    {
      SessionState(currentBlogTitle, interviewDuration, currentSessionId, chatMessages)
    }

    function Input(): InputState
      reads this`isAudioMode, this`messageInput, this`transcriptionText
    {
      InputState(isAudioMode, messageInput, transcriptionText)
    }

    /** A recorder is kept exactly while recording and it holds the stream;
        the duration counter reads 0 whenever no recording runs; only
        non-empty chunks are kept. */
    ghost predicate CaptureValid()
      reads this`isRecording, this`recordingDuration, this`streamHeld, this`mediaRecorder, this`audioChunks
    {
      && (isRecording <==> mediaRecorder.Some?)
      && (mediaRecorder.Some? ==> streamHeld)
      && (!isRecording ==> recordingDuration == 0)
      && ChunksKept(audioChunks)
    }

    /** An ended interview is inactive with no time left. */
    ghost predicate TimerValid()
      reads this`timeRemaining, this`isInterviewActive, this`isInterviewEnded
    {
      isInterviewEnded ==> !isInterviewActive && timeRemaining == 0
    }

    /** The slot names a created element, and any element playing is in it. */
    ghost predicate PlaybackValid()
      reads this`audios, this`activeAudio
    {
      SlotHeld(audios, activeAudio)
    }

    ghost predicate Valid()
      reads this
    {
      CaptureValid() && TimerValid() && PlaybackValid()
    }

    /** The initial values of the state hooks. */
    constructor ()
      ensures Valid()
      ensures chatMessages == [] && currentBlogTitle == DefaultTitle && currentSessionId == ""
      ensures !isAudioMode && messageInput == "" && transcriptionText == ""
      ensures Capture() == CaptureState(false, 0, false, None, [])
      ensures Playback() == PlaybackState([], None)
      ensures interviewDuration == 0 && Timer() == Countdown(0, false, false)
    {
      chatMessages := [];
      currentBlogTitle := DefaultTitle;
      isAudioMode := false;
      isRecording := false;
      recordingDuration := 0;
      messageInput := "";
      transcriptionText := "";
      currentSessionId := "";
      streamHeld := false;
      mediaRecorder := None;
      audioChunks := [];
      audios := [];
      activeAudio := None;
      interviewDuration := 0;
      timeRemaining := 0;
      isInterviewActive := false;
      isInterviewEnded := false;
    }

    /** One second of wall clock for the session countdown
        (app.tsx:49-68). The tick fires only while active with time left;
        nothing but the countdown changes. */
    method CountdownTick() returns (ticked: bool)
      requires Valid()
      modifies this
      ensures Valid()
      ensures ticked <==> Ticking(old(Timer()))
      ensures Timer() == CountdownStep(old(Timer()))
      ensures Capture() == old(Capture()) && Playback() == old(Playback())
      ensures Session() == old(Session()) && Input() == old(Input())
    {
      ticked := isInterviewActive && timeRemaining > 0;
      if ticked {
        if timeRemaining <= 1 {
          isInterviewActive := false;
          isInterviewEnded := true;
          timeRemaining := 0;
        } else {
          timeRemaining := timeRemaining - 1;
        }
      }
    }

    /** One second of wall clock for the recording counter
        (app.tsx:71-81): it counts only while recording. */
    method RecordingTick() returns (ticked: bool)
      requires Valid()
      modifies this
      ensures Valid()
      ensures ticked <==> old(isRecording)
      ensures recordingDuration == old(recordingDuration) + (if ticked then 1 else 0)
      ensures isRecording == old(isRecording) && streamHeld == old(streamHeld)
      ensures mediaRecorder == old(mediaRecorder) && audioChunks == old(audioChunks)
      ensures Timer() == old(Timer()) && Playback() == old(Playback())
      ensures Session() == old(Session()) && Input() == old(Input())
    {
      ticked := isRecording;
      if ticked {
        recordingDuration := recordingDuration + 1;
      }
    }

    /** The audio-mode toggle button. */
    method ToggleAudioMode()
      requires Valid()
      modifies this
      ensures Valid()
      ensures Input() == old(Input()).(isAudioMode := !old(isAudioMode))
      ensures Timer() == old(Timer()) && Capture() == old(Capture())
      ensures Playback() == old(Playback()) && Session() == old(Session())
    {
      isAudioMode := !isAudioMode;
    }

    /** The text area's `onChange`. */
    method EditMessage(value: string)
      requires Valid()
      modifies this
      ensures Valid()
      ensures Input() == old(Input()).(messageInput := value)
      ensures Timer() == old(Timer()) && Capture() == old(Capture())
      ensures Playback() == old(Playback()) && Session() == old(Session())
    {
      messageInput := value;
    }

    /** `startRecording` (app.tsx:118-153) once the host has answered. When
        permission is refused nothing changes; when the stream is granted
        but the encoder is refused, the stream stays held and nothing else
        changes; otherwise a recorder with the preferred codec (or the
        fallback) starts on an empty chunk list and the transcript clears. */
    method StartRecording(mic: MicAnswer, opusSupported: bool) returns (alerted: bool)
      requires Valid()
      modifies this
      ensures Valid()
      ensures alerted <==> !mic.MicGranted?
      ensures mic.MicDenied? ==> Capture() == old(Capture()) && Input() == old(Input())
      ensures mic.RecorderRefused? ==> Capture() == old(Capture()).(streamHeld := true) && Input() == old(Input())
      ensures mic.MicGranted? ==>
        && Capture() == CaptureState(true, old(recordingDuration), true,
                                     Some(MediaRecorder(if opusSupported then OpusMimeType else FallbackMimeType)), [])
        && Input() == old(Input()).(transcriptionText := "")
      ensures Timer() == old(Timer()) && Playback() == old(Playback()) && Session() == old(Session())
    {
      match mic
      case MicDenied =>
        alerted := true;
      case RecorderRefused =>
        streamHeld := true;
        alerted := true;
      case MicGranted =>
        streamHeld := true;
        var mimeType := if opusSupported then OpusMimeType else FallbackMimeType;
        audioChunks := [];
        mediaRecorder := Some(MediaRecorder(mimeType));
        isRecording := true;
        transcriptionText := "";
        alerted := false;
    }

    /** The recorder's `ondataavailable`: only non-empty data is kept
        (app.tsx:133-137). */
    method DataAvailable(data: Blob)
      requires Valid()
      modifies this
      ensures Valid()
      ensures audioChunks == if |data| > 0 then old(audioChunks) + [data] else old(audioChunks)
      ensures isRecording == old(isRecording) && recordingDuration == old(recordingDuration)
      ensures streamHeld == old(streamHeld) && mediaRecorder == old(mediaRecorder)
      ensures Timer() == old(Timer()) && Playback() == old(Playback())
      ensures Session() == old(Session()) && Input() == old(Input())
    {
      if |data| > 0 {
        audioChunks := audioChunks + [data];
      }
    }

    /** `stopRecording` (app.tsx:156-169). A running recorder delivers its
        last data (`finalData`) and then hands the concatenated chunks to
        the `onstop` callback; the stream is released and the recorder
        dropped. In every case recording ends and its counter returns to
        0. */
    method StopRecording(finalData: Blob) returns (finished: Option<AudioBlob>)
      requires Valid()
      modifies this
      ensures Valid()
      ensures finished.Some? <==> old(mediaRecorder).Some?
      ensures finished.Some? ==>
        && finished.value.mimeType == old(mediaRecorder).value.mimeType
        && finished.value.bytes == Concat(audioChunks)
      ensures !isRecording && recordingDuration == 0 && mediaRecorder.None?
      ensures streamHeld == (old(streamHeld) && old(mediaRecorder).None?)
      ensures audioChunks == if finished.Some? && |finalData| > 0 then old(audioChunks) + [finalData] else old(audioChunks)
      ensures Timer() == old(Timer()) && Playback() == old(Playback())
      ensures Session() == old(Session()) && Input() == old(Input())
    {
      finished := None;
      if mediaRecorder.Some? {
        DataAvailable(finalData);
        finished := Some(AudioBlob(Concat(audioChunks), mediaRecorder.value.mimeType));
        streamHeld, mediaRecorder := false, None;
      }
      isRecording := false;
      recordingDuration := 0;
    }

    /** The window's keydown listener (app.tsx:92-99): Space starts a
        recording only in audio mode, before the interview ended and when
        none is running. */
    method KeyDown(code: string, mic: MicAnswer, opusSupported: bool) returns (started: bool, alerted: bool)
      requires Valid()
      modifies this
      ensures Valid()
      ensures started <==> code == SpaceKey && old(isAudioMode) && !old(isInterviewEnded) && !old(isRecording)
      ensures !started ==> unchanged(this) && !alerted
      ensures started ==> alerted == !mic.MicGranted? && (isRecording <==> mic.MicGranted?)
      ensures started && mic.MicGranted? ==>
        mediaRecorder == Some(MediaRecorder(if opusSupported then OpusMimeType else FallbackMimeType))
        && audioChunks == [] && recordingDuration == 0 && transcriptionText == ""
      ensures started && !mic.MicGranted? ==>
        audioChunks == old(audioChunks) && recordingDuration == old(recordingDuration)
        && transcriptionText == old(transcriptionText)
      ensures started ==> streamHeld == (old(streamHeld) || !mic.MicDenied?)
      ensures Timer() == old(Timer()) && Playback() == old(Playback()) && Session() == old(Session())
      ensures isAudioMode == old(isAudioMode) && messageInput == old(messageInput)
    {
      started := code == SpaceKey && isAudioMode && !isInterviewEnded && !isRecording;
      alerted := false;
      if started {
        alerted := StartRecording(mic, opusSupported);
      }
    }

    /** The window's keyup listener (app.tsx:101-106): Space stops only in
        audio mode while recording. */
    method KeyUp(code: string, finalData: Blob) returns (stopped: bool, finished: Option<AudioBlob>)
      requires Valid()
      modifies this
      ensures Valid()
      ensures stopped <==> code == SpaceKey && old(isAudioMode) && old(isRecording)
      ensures !stopped ==> unchanged(this) && finished.None?
      ensures stopped ==> !isRecording && !streamHeld && mediaRecorder.None? && recordingDuration == 0
      ensures stopped ==> finished.Some? && finished.value.bytes == Concat(audioChunks)
      ensures stopped ==> finished.value.mimeType == old(mediaRecorder).value.mimeType
      ensures audioChunks == if stopped && |finalData| > 0 then old(audioChunks) + [finalData] else old(audioChunks)
      ensures Timer() == old(Timer()) && Playback() == old(Playback())
      ensures Session() == old(Session()) && Input() == old(Input())
    {
      stopped := code == SpaceKey && isAudioMode && isRecording;
      finished := None;
      if stopped {
        finished := StopRecording(finalData);
      }
    }

    /** `handleSendMessage` (app.tsx:223-286) with the chat service's answer.
        A candidate that is blank after trimming changes nothing. Otherwise
        the untrimmed text goes to the current session, the input clears, and
        the log gains the user's entry (marked as a transcription exactly when
        the text was passed explicitly) and one assistant entry. */
    method SendMessage(explicit: Option<string>, chat: ChatReply) returns (request: Option<ChatRequest>, play: Option<string>)
      requires Valid()
      modifies this
      ensures Valid()
      ensures var text := Candidate(explicit, old(messageInput));
        && (request.Some? <==> !Blank(text))
        && (request.Some? ==> request.value == ChatRequest(old(currentSessionId), text))
        && chatMessages == AfterSend(old(chatMessages), text, explicit.Some?, chat)
      ensures request.None? ==> unchanged(this) && play.None?
      ensures request.Some? ==> messageInput == ""
      ensures request.Some? ==> play == (if chat.Replied? then SpokenReply(isAudioMode, chat.message) else None)
      ensures request.None? ==> messageInput == old(messageInput)
      ensures currentBlogTitle == old(currentBlogTitle) && interviewDuration == old(interviewDuration)
      ensures currentSessionId == old(currentSessionId)
      ensures isAudioMode == old(isAudioMode) && transcriptionText == old(transcriptionText)
      ensures Timer() == old(Timer()) && Capture() == old(Capture()) && Playback() == old(Playback())
    {
      var text := Candidate(explicit, messageInput);
      request, play := None, None;
      if !Blank(text) {
        var transcribed := explicit.Some? && explicit.value != "";
        chatMessages := chatMessages + [UserTurn(text, transcribed)];
        messageInput := "";
        request := Some(ChatRequest(currentSessionId, text));
        chatMessages := chatMessages + [ReplyFor(chat)];
        if chat.Replied? {
          play := SpokenReply(isAudioMode, chat.message);
        }
      }
    }

    /** `handleAudioRecorded` up to the speech service's answer
        (app.tsx:172-181): the transcript field shows the placeholder, and
        the blob the recorder delivered, empty or not, is posted unchanged. */
    method AudioRecorded(blob: AudioBlob) returns (request: SttRequest)
      requires Valid()
      modifies this
      ensures request.audio == blob && request.fileName == RecordingFileName
      ensures Input() == old(Input()).(transcriptionText := TranscribingText)
      ensures Valid()
      ensures Timer() == old(Timer()) && Capture() == old(Capture())
      ensures Playback() == old(Playback()) && Session() == old(Session())
    {
      transcriptionText := TranscribingText;
      request := SttRequest(blob, RecordingFileName);
    }

    /** The rest of `handleAudioRecorded` (app.tsx:174-203): an error or an
        empty text only sets the notice; a non-empty text is shown and
        submitted once, explicitly, through `SendMessage`. */
    method TranscriptionArrived(stt: SttReply, chat: ChatReply) returns (request: Option<ChatRequest>, play: Option<string>)
      requires Valid()
      modifies this
      ensures Valid()
      ensures TranscriptSubmission(stt).None? ==>
        && Input() == old(Input()).(transcriptionText := TranscriptNotice(stt))
        && Session() == old(Session()) && request.None? && play.None?
      ensures TranscriptSubmission(stt).Some? ==>
        var text := TranscriptSubmission(stt).value;
        && transcriptionText == text
        && (request.Some? <==> !Blank(text))
        && (request.Some? ==> request.value == ChatRequest(old(currentSessionId), text) && messageInput == "")
        && (request.None? ==> messageInput == old(messageInput) && play.None?)
        && chatMessages == AfterSend(old(chatMessages), text, true, chat)
        && (request.Some? ==> play == if chat.Replied? then SpokenReply(isAudioMode, chat.message) else None)
      ensures currentBlogTitle == old(currentBlogTitle) && interviewDuration == old(interviewDuration)
      ensures currentSessionId == old(currentSessionId) && isAudioMode == old(isAudioMode)
      ensures Timer() == old(Timer()) && Capture() == old(Capture()) && Playback() == old(Playback())
    {
      request, play := None, None;
      match stt
      case Transcribed(text) =>
        transcriptionText := text;
        if text != "" {
          request, play := SendMessage(Some(text), chat);
        } else {
          transcriptionText := NoSpeechText;
        }
      case SttRejected(error) =>
        transcriptionText := ErrorPrefix + (if error != "" then error else TranscribeFailedText);
      case SttThrown(reason) =>
        transcriptionText := ErrorPrefix + reason;
    }

    /** The setters that run before the start request (app.tsx:290-294):
        the title, the duration and a fresh running countdown. */
    method OpenSession(title: string, duration: int)
      requires Valid()
      modifies this
      ensures Valid()
      ensures currentBlogTitle == title && interviewDuration == duration
      ensures Timer() == Countdown(duration, true, false)
      ensures currentSessionId == old(currentSessionId) && chatMessages == old(chatMessages)
      ensures Input() == old(Input()) && Capture() == old(Capture()) && Playback() == old(Playback())
    {
      currentBlogTitle, interviewDuration := title, duration;
      timeRemaining, isInterviewActive, isInterviewEnded := duration, true, false;
    }

    /** `handleLoadBlog` (app.tsx:289-341) with the start service's answer.
        Whatever the answer, the title and the budget are set and the
        interview becomes active and not ended; the log is replaced by the
        greeting (and the session id taken) or by the failure notice (and
        the old session id kept). */
    method LoadBlog(title: string, url: string, duration: int, start: StartReply) returns (request: StartRequest, play: Option<string>)
      requires Valid()
      modifies this
      ensures Valid()
      ensures request == StartRequest(url, duration)
      ensures currentBlogTitle == title && interviewDuration == duration
      ensures Timer() == Countdown(duration, true, false)
      ensures chatMessages == OpeningLog(start)
      ensures currentSessionId == if start.Started? then start.sessionId else old(currentSessionId)
      ensures play == if start.Started? then SpokenReply(isAudioMode, start.message) else None
      ensures Input() == old(Input()) && Capture() == old(Capture()) && Playback() == old(Playback())
    {
      OpenSession(title, duration);
      request := StartRequest(url, duration);
      play := None;
      if start.Started? {
        currentSessionId := start.sessionId;
        play := SpokenReply(isAudioMode, start.message);
      }
      chatMessages := OpeningLog(start);
    }

    /** `handlePlayAudio` (app.tsx:343-378) with the speech service's answer.
        The element in the slot is paused first, even for an empty text; an
        empty text or a failed synthesis starts nothing (a failure alerts);
        otherwise one new element plays and takes the slot. Afterwards no
        earlier element plays. */
    method PlayAudio(text: string, ttsOk: bool) returns (alerted: bool)
      requires Valid()
      modifies this
      ensures Valid()
      ensures alerted <==> text != "" && !ttsOk
      ensures |audios| >= |old(audios)|
      ensures forall i :: 0 <= i < |old(audios)| ==> audios[i] == Pause(old(audios)[i])
      ensures text != "" && ttsOk ==>
        |audios| == |old(audios)| + 1 && audios[|old(audios)|] == Playing && activeAudio == Some(|old(audios)|)
      ensures !(text != "" && ttsOk) ==> |audios| == |old(audios)| && activeAudio == old(activeAudio)
      ensures PlayingCount(audios) == if text != "" && ttsOk then 1 else 0
      ensures Timer() == old(Timer()) && Capture() == old(Capture())
      ensures Session() == old(Session()) && Input() == old(Input())
    {
      var paused := PauseSlot(audios, activeAudio);
      alerted := false;
      if text != "" && ttsOk {
        audios, activeAudio := paused + [Playing], Some(|paused|);
      } else {
        audios := paused;
        alerted := text != "";
      }
      SlotExclusive(audios, activeAudio);
    }

    /** The playing element's `onended`: it has finished and the slot is
        emptied. */
    method AudioEnded(i: nat)
      requires Valid()
      requires i < |audios| && audios[i] == Playing
      modifies this
      ensures Valid()
      ensures audios == old(audios)[i := Ended] && activeAudio.None?
      ensures PlayingCount(audios) == 0
      ensures Timer() == old(Timer()) && Capture() == old(Capture())
      ensures Session() == old(Session()) && Input() == old(Input())
    {
      audios := audios[i := Ended];
      activeAudio := None;
      SlotExclusive(audios, activeAudio);
    }
  }
}
