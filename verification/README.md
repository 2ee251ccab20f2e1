# Mannequins core in Dafny

Mannequins is a browser application that stages a scripted conversation
between several "speakers". Each speaker has a text-to-speech voice and an
audio output device. This project models the sequential logic at the
centre of the application and proves properties about it.

- **Conversation parser** (`ConversationParser`). The authored text is split on
  newlines. A line starting with `[` becomes the current speaker, kept verbatim.
  Every other line is appended with a newline to that speaker's text. Text
  before the first header is discarded. The imperative loop is the method
  `Parse`, proved equal to the recursive definition `ParseLines`. The
  definition has these proved properties:
  - one `Line` per header, in order;
  - an empty result when there is no header;
  - well-formed texts;
  - a reconstruction round trip;
  - the result on the built-in sample text.
- **Playback scheduler.** Two revisions are modelled:
  - the `ConversationHandler` class (`App`);
  - the conversation store (`Store`).

  Both are classes whose methods update the queue, the pause flag and the
  speaker table in place. One loop iteration is specified once, in
  `Playback.Step` (the action) and `Playback.Perform` (calling the speech
  service and the audio output). A bounded run of the loop is `Playback.Run`.
  Each class's `ConversationLoop` is a `while` loop proved equal to `Run`.
- **MIDI decoding and dispatch** (`Midi`). The status byte is split into a
  command and a channel, and the velocity is scaled. Commands 8, 9, 11 and 14
  are dispatched. Note-on events are broadcast to a listener list that only
  grows. `MidiApi` is a class holding that list.
- **Service-worker decisions** (`ServiceWorker`). These are pure predicates
  over URLs and responses:
  - which URLs are cacheable;
  - which requests are intercepted;
  - which responses are stored;
  - which reply an offline request gets;
  - which caches are deleted on activation.

The speech service is a function parameter `say`. Audio output is the set
`contexts` of device ids that have an audio context: playing on any other
device throws. Effects that the model cannot perform are returned as data:
- the MIDI listener calls;
- the fetch handler's choice of reply.

## Model

| member | source | states |
|---|---|---|
| ConversationParser.Split | src/Conversation.tsx:29 | splitting on `"\n"` yields at least one piece and no piece contains a newline |
| ConversationParser.SplitJoinLines | src/Conversation.tsx:29 | splitting the newline-join of newline-free lines gives those lines back |
| ConversationParser.JoinLinesSplit | src/Conversation.tsx:29 | joining the pieces of a split with `"\n"` gives the original text back |
| ConversationParser.Parse | src/Conversation.tsx:28-54 | the imperative loop returns exactly the specified parse of the split text, with one Line per header line |
| ConversationParser.ParseSpeakers | src/Conversation.tsx:36-51 | the speakers of the parsed Lines are exactly the header lines of the input, verbatim and in input order, so the number of Lines equals the number of lines starting with `[` |
| ConversationParser.NoHeaderNoLines | src/Conversation.tsx:33-53 | text in which no line starts with `[` parses to no Lines |
| ConversationParser.ParseRoundTrip | src/Conversation.tsx:29-51 | the discarded preamble lines, each followed by `"\n"`, followed by `speaker + "\n" + text` over all Lines, rebuild the input plus one trailing `"\n"`; so everything before the first header is exactly what is dropped |
| ConversationParser.ParseTexts | src/Conversation.tsx:44-46 | every Line's text is empty or ends in `"\n"`, and none of its component lines starts with `[` |
| ConversationParser.ParseBlock | src/Conversation.tsx:37-46 | a header followed by header-free lines adds exactly one Line whose text is those lines, each followed by `"\n"` |
| ConversationParser.SampleLines | src/Conversation.tsx:8-19 | the built-in sample splits into its twelve source lines, including the leading and trailing empty ones |
| ConversationParser.SampleJoined | src/Conversation.tsx:8-19 | the sample text, written out line by line, is its twelve lines joined with `"\n"` |
| ConversationParser.SampleConversation | src/Conversation.tsx:8-54 | the built-in sample parses to `[SPEAKER1]`, `[SPEAKER2]`, `[SPEAKER3]`, with texts ending in three, three and two newlines |
| Playback.Resolve | src/store/conversationStore.ts:69-71 | a line is dropped exactly when its speaker has no configuration, and is otherwise spoken with that speaker's voice on that speaker's device |
| Playback.Step | src/store/conversationStore.ts:56-71 | a step waits, with the state unchanged, exactly when the queue is empty or playback is paused; otherwise it removes exactly the head, keeps the rest in order, and resolves the head; the pause flag and the speaker table are never changed |
| Playback.Perform | src/store/conversationStore.ts:73-78 | a spoken line is skipped when synthesis returns no audio and played on the configured device when it returns audio; a synthesis error or a device without an audio context ends the loop |
| Playback.Run | src/store/conversationStore.ts:54-80 | a run of at most n iterations keeps the pause flag and the speaker table, and leaves a suffix of the queue, so no line is ever put back |
| Playback.RunLeavesUnhandled | src/store/conversationStore.ts:62-65 | the queue a run leaves is exactly the original queue minus the lines its iterations took off the front: one per iteration while playing, until the queue is empty; none while paused |
| Playback.RunStopsOnCrash | src/store/conversationStore.ts:54-80 | only a failed synthesis or playback ends the loop early, and it is always the last outcome |
| Playback.RunOutcomeAt | src/store/conversationStore.ts:54-80 | the i-th iteration handles the i-th queued line while playing, and waits once the queue is exhausted or while paused |
| Playback.RunInOrder | src/store/conversationStore.ts:54-80 | all outcomes of a run are the queued lines' fates in queue order, followed by waits |
| Playback.RunWhileIdle | src/store/conversationStore.ts:56-60 | while the queue is empty or playback is paused, every iteration waits and the state never changes |
| Playback.RunDrains | src/store/conversationStore.ts:54-80 | with playback on, enough iterations and no failing line, the queue is emptied and the loop then waits |
| Playback.FirstInFirstOut | src/store/conversationStore.ts:62-65 | two lines added to an empty queue are resolved first-in first-out by two steps, which leave the queue empty again |
| App.ConversationHandler.constructor | src/App.tsx:10-27 | construction gives an empty queue, playing, not cancelled, and exactly the three default speakers, each on device `"default"` with voice alloy |
| App.ConversationHandler.SetSpeakerConfig | src/App.tsx:41-43 | sets one speaker's entry; every other entry, the queue and the flags are unchanged |
| App.ConversationHandler.Queue | src/App.tsx:45-47 | appends the lines at the back in order; the old queue stays as the prefix |
| App.ConversationHandler.Step | src/App.tsx:53-65 | one iteration updates the fields exactly as `Playback.Step` specifies and leaves `cancel` alone |
| App.ConversationHandler.ConversationLoop | src/App.tsx:51-74 | when not cancelled, the loop produces exactly the outcomes and the state of `Playback.Run`; when cancelled, it does nothing |
| Store.ConversationStore.constructor | src/store/conversationStore.ts:20-28 | the initial state is an empty queue, playing, and exactly the three default speakers |
| Store.ConversationStore.SetConversationQueue | src/store/conversationStore.ts:30-34 | replaces the whole queue and nothing else |
| Store.ConversationStore.SetIsPlaying | src/store/conversationStore.ts:36-40 | changes only the pause flag |
| Store.ConversationStore.SetSpeakerConfig | src/store/conversationStore.ts:42-46 | changes only that speaker's entry |
| Store.ConversationStore.AddToQueue | src/store/conversationStore.ts:48-52 | appends the lines at the back in order and changes nothing else |
| Store.ConversationStore.Step | src/store/conversationStore.ts:56-71 | one iteration updates the store exactly as `Playback.Step` specifies |
| Store.ConversationStore.ConversationLoop | src/store/conversationStore.ts:54-80 | the loop produces exactly the outcomes and the state of `Playback.Run` |
| Midi.ParseMidiMessage | src/lib/midi.ts:75-86 | no message exactly when the data is absent or shorter than 3 bytes. Otherwise: command and channel are the nibbles of the status byte (so `command*16 + channel` is that byte); the note is the second byte; the velocity is the third byte over 127, non-negative, positive exactly when the byte is non-zero, and at most 1 for a data byte below 0x80 |
| Midi.StatusSplit | src/lib/midi.ts:81-82 | `b >> 4` and `b & 0xf` are both in 0..15 and recombine to b |
| Midi.NoteCalls | src/lib/midi.ts:27-31 | with a positive velocity every listener is called exactly once, in registration order, with the note and the velocity; otherwise none is called |
| Midi.Dispatch | src/lib/midi.ts:51-72 | command 8 reports a note with the velocity negated, command 9 with the velocity itself, command 11 reports the mod wheel only for note 1, command 14 reports the pitch bend, and any other command does nothing |
| Midi.OnlyNoteOnCallsListeners | src/lib/midi.ts:27-62 | some note listener is called exactly when the command is 9, the velocity byte is non-zero and a listener is registered; command 8 and every other command never reach the listeners |
| Midi.ChannelIgnored | src/lib/midi.ts:51-72 | the channel plays no part in dispatch |
| Midi.MidiApi.constructor | src/lib/midi.ts:4-8 | a new instance has no listeners |
| Midi.MidiApi.AddNoteOnListener | src/lib/midi.ts:23-25 | appends the listener; earlier listeners keep their order |
| Midi.MidiApi.OnNote | src/lib/midi.ts:27-31 | the loop over the listener list makes exactly the calls `NoteCalls` specifies |
| Midi.MidiApi.HandleMidiMessage | src/lib/midi.ts:45-73 | a message that does not parse has no effect; otherwise the effects are those of `Dispatch` |
| ServiceWorker.Includes | out/service-worker.js:33-35 | `includes` holds exactly when the part occurs at some position |
| ServiceWorker.ToLower | out/service-worker.js:31 | lower-casing keeps the length and maps each character on its own |
| ServiceWorker.ShouldCache | out/service-worker.js:18-37 | a URL is cacheable exactly when its lower-cased extension is one of the 12 listed, or `/assets/`, `/images/` or `/media/` occurs in it as written |
| ServiceWorker.Intercepts | out/service-worker.js:42-47 | a request is handled exactly when the origin occurs at the start of its URL or `fonts.cdnfonts.com` occurs anywhere in it |
| ServiceWorker.ShouldStore | out/service-worker.js:58-74 | a response is stored only when its status is 200 and its type is `basic`, and then exactly when the URL is cacheable |
| ServiceWorker.MatchesImagePattern | out/service-worker.js:85 | the offline image pattern holds exactly when the URL's extension, as written and without lower-casing, is one of the six image extensions |
| ServiceWorker.CacheableByExtension | out/service-worker.js:20-31 | the extension test holds exactly when the extension after the last dot of the lower-cased URL is one of the 12 listed |
| ServiceWorker.UpperCaseExtensionCached | out/service-worker.js:31 | `/logo.PNG` is cacheable, because the extension test lower-cases the URL |
| ServiceWorker.PageNotCached | out/service-worker.js:18-37 | `/index.html` is not cacheable |
| ServiceWorker.DirectoryMatchIsCaseSensitive | out/service-worker.js:33-35 | `/assets/a` is cacheable by its directory but `/ASSETS/a` is not, because the directory test does not lower-case |
| ServiceWorker.HandleFetch | out/service-worker.js:42-76 | a request is handled exactly when its URL starts with the origin or mentions `fonts.cdnfonts.com`. A handled request is answered from the cache when it hits; otherwise a network response is returned, and stored exactly when the store rule holds. A failed fetch gets the offline fallback |
| ServiceWorker.OfflineFallback | out/service-worker.js:80-96 | a navigation gets the cached `/index.html`; otherwise a URL ending in a lower-case image extension gets an empty 200 `image/svg+xml` response; everything else gets a 408 |
| ServiceWorker.ImagePatternIsCacheable | out/service-worker.js:85 | a URL that gets the image placeholder offline is also cacheable |
| ServiceWorker.UpperCaseImageNotMatched | out/service-worker.js:85 | `/logo.PNG` is cacheable but does not get the image placeholder, because the offline image pattern is case-sensitive |
| ServiceWorker.CachesToDelete | out/service-worker.js:104-116 | a cache name is deleted exactly when it is not the static or the dynamic cache |
| ServiceWorker.OldCacheDeleted | out/service-worker.js:104-116 | the legacy `mannequins-cache-v1` cache is deleted when present, and the static and dynamic caches never are |

## Left out

- Speech synthesis (`API.say`) is a pure function parameter. The network call is not modelled, and neither is any change in its answers from one call to the next.
- Audio output is the set of device ids with an audio context. Device enumeration, decoding and playback are not modelled. `src/lib/audio.ts` is not part of this model, except that `play` throws for a device without an audio context.
- The one-second waits and the async interleaving of UI actions with the loop are not modelled. A run is a bounded number of iterations (`Run`, `ConversationLoop(iterations)`), because Dafny methods must terminate. The loop's `while (true)` and `while (!this.cancel)` never end on their own.
- App.ConversationHandler.ConversationLoop: `cancel` is read once per iteration, but nothing in the model sets it during a run. Setting it from another task between iterations is concurrency, which is not modelled.
- The singleton `getInstance`, the loop start in the constructor, and the loop start at module load are not modelled.
- The `!conversation` guards (src/App.tsx:61, src/store/conversationStore.ts:67) are not modelled, since a non-empty queue always has a head line. Queued `Line` values are never undefined.
- Playback.Perform: `API.say` and `audioAPI.play` are awaited without a `try`. A rejection ends the async loop, so `Crashed` ends `Run`. There is no retry and no fallback device.
- ConversationParser.Parse: the header line is kept verbatim as the speaker, with no bracket extraction.
- ServiceWorker.ToLower: JavaScript's `toLowerCase` is modelled for ASCII letters only. Other characters are kept unchanged.
- Midi.ParseMidiMessage: the velocity is an exact `real` (byte / 127), not an IEEE double. The source does not check that data bytes are below 0x80, so the velocity ≤ 1 bound is stated only for data bytes below 0x80.
- `src/Interruptions.tsx` reads `welcomeText`, `hushText` and `goodbyeText` from the conversation store, which the store does not define; it is not modelled.
- MIDI `init` (`navigator.requestMIDIAccess`) is not modelled; `handleMidiMessage` takes the message bytes as an `Option` instead. `onModWheel` and `onPitchBend` only log, so they are returned as effects. `onPad` is never called.
- The Cache Storage and `fetch` APIs, the install handler, `clients.claim` and the Promise plumbing of the service worker are not modelled. The model keeps the decisions and returns them as data.
- The UI components, JSX and localStorage persistence are not modelled.
