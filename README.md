# Voice chat client: the interaction controller

This project models the browser side of a voice chat assistant, `public/script.js`. The page listens
with the host's speech recognition. It sends each new final transcript to the server over a WebSocket
and speaks the server's replies with speech synthesis. Its behaviour comes from a few module-level
variables (`isListening`, `isSpeaking`, `manualStop`, `lastUserText`, `lastFinalUserTs`,
`currentUtterance`, `voices`, `selectedVoiceIndex`). Those variables are changed by:

- the recognition callbacks,
- the utterance callbacks,
- the mic button,
- inbound frames,
- two kinds of timers: the 500 ms recognition restart and the minimum-gap delay before a reply is
  spoken.

The project has five modules:

- `Text`: JavaScript `trim` (the exact ECMAScript whitespace set) and the case mapping used by the
  duplicate test.
- `Voices`: the voice list, the `findIndex(...) || 0` choice of an `en-IN` voice, the selector's
  parsed value, and `voices[i]` lookup.
- `Session`: the specification.
  - The state is grouped by the part of the client it belongs to: `Channel` (the socket), the chat
    transcript, `Playback` (synthesis) and `Capture` (recognition).
  - Every handler is a total function over the part it changes.
  - Timers are explicit queues of pending requests. A fired timer leaves its queue.
  - Calls into the host (frames sent, recognition start/stop/abort, synthesis speak/cancel) are
    appended to logs.
  - `Event`, `Step` and `Run` let the environment deliver any sequence of callbacks. `Inv` is
    preserved by every step.
- `Controller`: the class `VoiceSession`. Its fields are the script's variables plus those queues
  and logs.
  - Each method changes, in place, only the fields its handler writes (field-level `modifies`).
  - Each is proved to end in the state the matching `Session` function gives.
  - The handlers the host calls keep `Valid()`.
- `Properties`: lemmas over single handlers and over whole event sequences. It also holds a concrete
  "hello" exchange.

The code is modelled as written, including behaviours a reader would not expect from it. Lemmas in
`Properties` state each one:

- Cancelling playback does not withdraw a pending speak timer, so a reply that was cancelled during
  its gap still reaches the synthesis service and plays. Its `onstart` sets `isSpeaking` while no
  utterance is current (`CancelledReplyStillPlays`). Nothing checks which utterance a callback
  belongs to.
- A restart timer runs `startRecognition`, which clears `manualStop`. So a restart scheduled before
  a manual stop still restarts recognition, although the user asked it to stop
  (`PendingRestartOverridesStop`). Several restarts can be pending at once.
- `isListening` becomes true only in `recognition.onstart`, and `isSpeaking` only in an utterance's
  `onstart` (`FlagsRaisedOnlyByCallbacks`). `speakWithGap` itself leaves `isSpeaking` false. During a reply's
  gap it can still become true through an earlier reply's `onstart` (see `CancelledReplyStillPlays`).
- `findIndex(...) || 0` leaves -1 when no voice is `en-IN` (only 0 is falsy among integers). So no
  voice is set and the platform default speaks, even when other voices exist
  (`NoRegionalVoiceSpeaksWithDefault`).
- The mic button's stop branch sets `manualStop` only when the recognition object exists, because
  `stopRecognition` returns early without one. This happens when a reply is being spoken before the
  mic was ever used (`Session.MicClick`).
- A "not-allowed" error queues no restart, but the recognition service delivers `end` after every
  error and `onend` checks only `manualStop` and `isSpeaking`. So a refused microphone is retried
  every 500 ms, each retry clearing `manualStop` and starting recognition again
  (`PermissionDeniedStillRestarts`).
- While the socket is closed, accepted transcripts are recorded but never sent, and nothing queues
  them (`ClosedChannelDropsSends`).

## Model

| member | source | states |
|---|---|---|
| Text.Trim | public/script.js:103 | The trimmed transcript has no whitespace at either end. It is empty exactly when the input is all whitespace. |
| Text.TrimPadded | public/script.js:103 | Trimming removes exactly the surrounding whitespace: `Trim(pre + t + post) == t` for any whitespace `pre`/`post` and unpadded `t`. |
| Text.TrimIdempotent | public/script.js:103 | Trimming twice is trimming once. |
| Text.LowerChar | public/script.js:104 | An upper-case ASCII letter becomes its lower-case letter (32 code points on). Any other character is kept. No upper-case letter remains. |
| Text.Lower | public/script.js:104 | Same length and no upper-case ASCII letter left. Each character is either kept, when it is not an upper-case letter, or is an upper-case letter moved to its lower-case letter. |
| Text.LowerEqualIff | public/script.js:104 | Two strings lower-case to the same string exactly when they have the same length and agree character by character up to ASCII letter case. |
| Voices.FindRegional | public/script.js:48 | `findIndex`: -1 exactly when no voice's language starts with "en-IN"; otherwise the index of the first one. |
| Voices.PreferredIndex | public/script.js:48 | `|| 0` changes nothing: the stored index is the `findIndex` result, the first regional voice, and -1 exactly when there is none. |
| Voices.VoiceAt | public/script.js:70-72 | `voices[i]` is defined exactly for indices inside the list, so -1 names no voice. |
| Voices.SelectedIndex | public/script.js:55 | A value that does not parse gives 0; a parsed number is kept as it is. |
| Session.Send | public/script.js:17-21 | A frame is appended to the outbound log exactly when the socket is open. Otherwise nothing changes. |
| Session.PopulateVoiceList | public/script.js:43-50 | The voice list is replaced. The selection is the first regional voice, and -1 exactly when no voice is regional. Nothing else changes. |
| Session.SelectVoice | public/script.js:54-56 | Only the selected index changes, to the parsed value (0 when it does not parse). |
| Session.CancelTts | public/script.js:58-66 | Afterwards nothing is speaking and no utterance is current, whatever the state before. One cancel is logged when forced. Pending speak timers are kept. The playback invariant is preserved. |
| Session.GapWait | public/script.js:77 | The wait is never negative. Speech starts no earlier than MIN_GAP_MS after the last final transcript, and with no longer wait than that requires. The wait is at most MIN_GAP_MS when the clock has not gone backwards. |
| Session.SpeakWithGap | public/script.js:68-79 | Playback is cancelled. A fresh utterance with the selected voice (if any) becomes current. One speak timer is queued for it, no earlier than `now` and than MIN_GAP_MS after the last final transcript, and, when the clock has not gone backwards, no later than MIN_GAP_MS from `now`. Not speaking yet. |
| Session.FireSpeakTimer | public/script.js:78 | The timer leaves the queue and its utterance is handed to the synthesis service, even if it was cancelled meanwhile. |
| Session.OnUtteranceStart | public/script.js:73 | Speaking begins. Nothing else changes. |
| Session.OnUtteranceDone | public/script.js:74-75 | Nothing is speaking and no utterance is current. Nothing else changes. |
| Session.BargeIn | public/script.js:97 | Speech while the assistant speaks cancels playback (a logged cancel). Otherwise nothing changes. Afterwards nothing is speaking. |
| Session.StartRecognition | public/script.js:122-127 | The recognition object exists afterwards. While listening, nothing else changes. Otherwise `manualStop` is cleared and one start is logged. Listening is not set. |
| Session.StopRecognition | public/script.js:128-135 | Without a recognition object, nothing changes. Otherwise `manualStop` is set, listening ends, and stop then abort are logged. |
| Session.OnRecognitionStart | public/script.js:96 | Listening begins. Nothing else changes. |
| Session.OnError | public/script.js:111-115 | Listening ends. A restart 500 ms later is queued if and only if the stop was not manual and the error is not "not-allowed". |
| Session.OnEnd | public/script.js:116-119 | Listening ends. A restart 500 ms later is queued if and only if the stop was not manual and nothing is speaking. |
| Session.FireRestartTimer | public/script.js:114-125 | The timer leaves the queue and `startRecognition` runs without looking at `manualStop`. When not listening, this clears `manualStop` and logs a start. |
| Session.OnFinal | public/script.js:102-109 | An empty or repeated trimmed transcript changes nothing. Any other sets the last text and time stamp, appends one user message and makes one send attempt. Playback is never touched. |
| Session.OnResult | public/script.js:98-110 | Only the last result matters. With none, nothing changes. An interim result is a barge-in. A final result is `OnFinal` and leaves playback as it was. |
| Session.MicClick | public/script.js:138-148 | While listening or speaking, stops recognition and playback (`manualStop` set when recognition exists; not listening, not speaking). Otherwise clears the duplicate memory and starts recognition. |
| Session.ReplyOf | public/script.js:153-155 | A frame yields a reply exactly when it parsed and carries a non-empty `text`. |
| Session.HandleServerMessage | public/script.js:151-158 | A frame without a reply changes nothing. A reply appends one `ai` message with its source and is spoken after the gap. Socket and recognition are untouched. |
| Session.Init | public/script.js:38-52 | At page load: socket closed, no messages, no recognition object, nothing pending, no utterance, no host calls. The voice list is the host's and the selection is its first regional voice (-1 when none). The invariant holds. |
| Session.Step | public/script.js:9-158 | Every callback, click, frame and timer the host can deliver preserves the invariant. |
| Session.Run | public/script.js:9-158 | Any sequence of events preserves the invariant. |
| Properties.RunExtends | public/script.js:107-108 | Over any event sequence, the outbound frames, the transcript and both host call logs only grow (each old log is a prefix of the new). |
| Properties.ClosedChannelDropsSends | public/script.js:17-21 | While the socket stays closed, no frame is sent and the socket stays closed, whatever else happens. |
| Properties.IsRepeatIgnoresCase | public/script.js:104 | The duplicate test `Session.IsRepeat`: a trimmed transcript is a repeat exactly when it is empty or agrees with the last accepted one letter by letter up to ASCII case. |
| Properties.AcceptUnpadded | public/script.js:102-108 | A final without surrounding whitespace that is not a repeat is accepted unchanged: remembered, stamped, added once and sent once. |
| Properties.RepeatsAreIgnored | public/script.js:102-104 | Finals whose trimmed, lower-cased transcript equals the last accepted one change nothing at all. |
| Properties.RepeatedFinalsSendOnce | public/script.js:102-108 | Consecutive finals that agree up to case and surrounding whitespace add at most one user message and at most one frame. They add exactly one of each (the frame when the socket is open) unless the first already repeats the last text. Playback is untouched. |
| Properties.StopSuppressesRestarts | public/script.js:111-135 | After a manual stop, no error or end queues a restart, and the stop stays in force, until a restart timer or a start-branch click (neither listening nor speaking) runs `startRecognition`. Stop-branch clicks, such as one that silences a reply, keep the stop in force. |
| Properties.PermissionDeniedStillRestarts | public/script.js:111-126 | A "not-allowed" error queues no restart, but the `end` that follows it queues one 500 ms later when nothing is speaking, and that restart clears `manualStop` and starts recognition again. |
| Properties.PendingRestartOverridesStop | public/script.js:114-125 | A restart queued by an error before a stop click still fires afterwards, clears `manualStop` and starts recognition. |
| Properties.CancelledReplyStillPlays | public/script.js:58-78 | A reply cancelled before its gap ends is still handed to synthesis, and its `onstart` marks speaking with no current utterance. |
| Properties.CancelTtsIdempotent | public/script.js:58-66 | A second `cancelTTS` changes nothing except logging one more cancel when forced. |
| Properties.MicStartClearsDuplicateMemory | public/script.js:138-148 | After a start click, a non-blank final is accepted even if it repeats the text before the click. |
| Properties.NoRegionalVoiceSpeaksWithDefault | public/script.js:48-72 | With no "en-IN" voice, the reply's utterance has no voice set, even when voices exist. |
| Properties.FlagsRaisedOnlyByCallbacks | public/script.js:73-96 | Listening is raised only by recognition `onstart`, and speaking only by an utterance's `onstart`. |
| Properties.AcceptHello | public/script.js:102-108 | After a fresh start, the final "hello" is recorded, stamped and sent once. |
| Properties.RejectPaddedHello | public/script.js:103-104 | " Hello " after "hello" is a repeat and changes nothing. |
| Properties.HelloExchange | public/script.js:98-158 | Hello said twice (once padded and capitalised), then one reply. One frame goes out, there are two messages, and the reply's speech is queued for MIN_GAP_MS after the final at time 0. |
| Controller.VoiceSession.constructor | public/script.js:38-52 | The fields start as `Session.Init` describes, and `Valid()` holds. |
| Controller.VoiceSession.SocketOpened | public/script.js:9-14 | Only the socket's open flag changes, to open. |
| Controller.VoiceSession.SocketClosed | public/script.js:9-14 | Only the socket's open flag changes, to closed. |
| Controller.VoiceSession.SendToServer | public/script.js:17-21 | The socket fields end as `Session.Send` gives. |
| Controller.VoiceSession.AddMessage | public/script.js:23-36 | Exactly one entry is appended to the transcript. |
| Controller.VoiceSession.PopulateVoiceList | public/script.js:43-50 | The playback fields end as `Session.PopulateVoiceList` gives. |
| Controller.VoiceSession.SelectVoice | public/script.js:54-56 | The playback fields end as `Session.SelectVoice` gives. |
| Controller.VoiceSession.CancelTts | public/script.js:58-66 | The playback fields end as `Session.CancelTts` gives. |
| Controller.VoiceSession.SpeakWithGap | public/script.js:68-79 | The playback fields end as `Session.SpeakWithGap` gives for the current `lastFinalUserTs`. |
| Controller.VoiceSession.FireSpeakTimer | public/script.js:78 | The playback fields end as `Session.FireSpeakTimer` gives. |
| Controller.VoiceSession.OnUtteranceStart | public/script.js:73 | The playback fields end as `Session.OnUtteranceStart` gives. |
| Controller.VoiceSession.OnUtteranceDone | public/script.js:74-75 | The playback fields end as `Session.OnUtteranceDone` gives. |
| Controller.VoiceSession.OnSpeechStart | public/script.js:97 | The playback fields end as `Session.BargeIn` gives. |
| Controller.VoiceSession.StartRecognition | public/script.js:122-127 | The recognition fields end as `Session.StartRecognition` gives. |
| Controller.VoiceSession.StopRecognition | public/script.js:128-135 | The recognition fields end as `Session.StopRecognition` gives. |
| Controller.VoiceSession.OnRecognitionStart | public/script.js:96 | The recognition fields end as `Session.OnRecognitionStart` gives. |
| Controller.VoiceSession.OnError | public/script.js:111-115 | The recognition fields end as `Session.OnError` gives. |
| Controller.VoiceSession.OnEnd | public/script.js:116-119 | The recognition fields end as `Session.OnEnd` gives for the current `isSpeaking`. |
| Controller.VoiceSession.FireRestartTimer | public/script.js:114-125 | The recognition fields end as `Session.FireRestartTimer` gives. |
| Controller.VoiceSession.OnFinal | public/script.js:102-109 | The whole state ends as `Session.OnFinal` gives. |
| Controller.VoiceSession.AcceptFinal | public/script.js:105-108 | The last text and time stamp are set, one user message is appended, and the socket fields end as `Session.Send` gives. |
| Controller.VoiceSession.OnResult | public/script.js:98-110 | The whole state ends as `Session.OnResult` gives. |
| Controller.VoiceSession.MicClick | public/script.js:138-148 | The whole state ends as `Session.MicClick` gives. |
| Controller.VoiceSession.HandleServerMessage | public/script.js:151-158 | The whole state ends as `Session.HandleServerMessage` gives. |
| Controller.VoiceSession.ShowAndSpeak | public/script.js:156-157 | One `ai` message is appended, and the playback fields end as `Session.SpeakWithGap` gives. |

## Left out

- The server (`src/server.js`): WebSocket wiring, the upstream provider calls and their fallback
  chain are network I/O.
- The DOM: creating message elements, the source label, scrolling, the selector's option list and the
  mic button's CSS class. A message is an entry in the transcript log.
- The WebSocket object and its 1000 ms reconnect loop. The socket is an open flag that the host
  events `SocketOpened` and `SocketClosed` set; `ws.send` is an append to the outbound log.
- The host speech services: audio, voice objects beyond name and language, and recognition results
  beyond `isFinal` and the first alternative's transcript. Their callbacks are method calls made by
  the environment. Which utterance a callback belongs to is kept only as an enabling condition of
  `Step`, because the code never looks at it.
- `JSON.parse`: a frame is an `Option<Frame>` whose `text` and `source` are present as strings or
  absent. A `text` that is a non-string truthy value is not modelled.
- `parseInt`: the selector value arrives already parsed, with None for NaN.
- `Date.now`: it is the `now` parameter.
- Text.Lower: maps ASCII letters only, because Unicode case mapping is outside the model. Two
  transcripts that differ only in non-ASCII case count as different here, but are a repeat in the
  source.
- The `alert` branch when the host has no speech recognition. `initRecognition` always succeeds here.
- The `try`/`catch` around `speechSynthesis.cancel()`: the cancel is always logged.
- Console logging.
- Timer concurrency and ordering: pending timers are queues, and the environment chooses which one
  fires next by its position. Fire times are recorded but not enforced against a clock.
- Events the host cannot deliver in a state (a recognition callback before the recognition object
  exists, an utterance callback for an utterance never spoken, a timer that is not pending) leave the
  state unchanged in `Step`.
