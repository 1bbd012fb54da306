# Chatbot widget: store, send/attach protocol and validators in Dafny

This project models the logic core of an embeddable React chat widget:

- **The chat store** (`src/store/chatStore.ts`). It is one state record of seven fields:
  `isOpen`, `isFullscreen`, `theme`, `messages`, `uploadedFiles`, `isLoading` and
  `showFeedbackModal`. Each action overwrites some of those fields.
  - `ChatModel` gives the pure effect of every action as `Apply(state, action)`.
  - `ChatStore.Store` is a class with the seven fields. Each method is proved to leave
    `State()` equal to `Apply(old(State()), action)`, so the frame, idempotence and
    ordering lemmas about `Apply` hold for the class too.
  - Loading and saving go through a `LocalStorage` class: a map from key to stored
    record, and a write that may fail.
  - `Persistence` describes the snapshot `{messages, theme}` and the two places where JSON
    changes a value. A `Date` becomes ISO text, or `null` when invalid. A `File` becomes `{}`.
- **The send and attach protocol** (`MessageInput.tsx` and `FileUpload.tsx`).
  - A file selection is processed in order. Each file is validated first, and then the
    pending count is compared with `MAX_FILES`.
  - The count is the value read when the batch starts (a closure snapshot). So a batch
    of valid files is admitted whole, and the pending list can grow past three.
    `Admission.SnapshotCountAdmitsWholeBatch` and `Admission.OverflowExample` state this.
  - A submit appends one user message, clears the pending list and starts loading. A
    separate reply step appends one bot message and stops loading.
  - The input bar raises an alert per rejected file; the upload panel raises a toast per
    file.
- **The validators**:
  - `validateFile`;
  - `validateEmail`, with its regular expression decided by a plain predicate and proved
    equal to a direct reading of the expression;
  - the `validate` rule of `emailValidationRules`.
- **Theme detection**: `detectPageTheme` over a record of the page signals it reads.

`crypto.randomUUID()` and `new Date()` are parameters: an `id` and a `now` per call. A batch
of files comes with one id per file. The two timers are explicit later steps:
- the 100 ms auto-save is `Store.FlushScheduledSave`, counted by `pendingSaves`;
- the bot reply is `MessageInput.DeliverBotReply`.

`generateBotResponse` is an index `choice` into `BOT_RESPONSES`. Whether a storage write
succeeds is the parameter `writeSucceeds`.

Behaviour of the code worth knowing:

- `addFile` in the store neither validates nor checks the count
  (`ChatModel.AddFileIsUnchecked`). The limit lives only in the two handlers, and there
  the count is read once per batch. So the pending list is not kept at three or fewer.
- `setTheme` and `toggleTheme` schedule no save. Only `addMessage` and
  `updateMessageFeedback` do.
- A corrupt record on load leaves the in-memory state as it was, not reset to the
  defaults. When loading at start-up, as `ChatStore.OpenOverCorruptRecord` does, this is
  the default state.
- The dot-placement check also tests for a trailing dot. That branch can never fire,
  because the pattern forces the address to end with a letter
  (`EmailValidation.PatternEndsWithLetter`).

## Model

| member | source | states |
|---|---|---|
| ChatModel.WithFeedback | src/store/chatStore.ts:42-44 | the length is kept; every message with the id gets the feedback, and every other message is unchanged |
| ChatModel.WithoutFile | src/store/chatStore.ts:65-67 | the result is no longer than the input and contains no file with the removed id |
| ChatModel.Apply | src/store/chatStore.ts:20-79 | the effect of each store action on the seven state fields; its frame is stated by ChatModel.ApplyFrame |
| ChatModel.ApplyFrame | src/store/chatStore.ts:20-79 | every action leaves each slice it does not write exactly as it was |
| ChatModel.Run | src/store/chatStore.ts:20-79 | a sequence of store calls applied in call order; its frame is stated by ChatModel.RunFrame |
| ChatModel.RunFrame | src/store/chatStore.ts:20-79 | over a whole run of store calls, a slice that no call writes keeps its value |
| ChatModel.TogglesAreInvolutions | src/store/chatStore.ts:20-24 | each toggle changes the state, and applying it twice is the identity |
| ChatModel.ClearChatKeepsSettings | src/store/chatStore.ts:79 | clearChat empties messages and pending files and keeps every flag and the theme |
| ChatModel.ClearFilesIdempotent | src/store/chatStore.ts:71 | clearFiles empties the pending list, and a second call changes nothing |
| ChatModel.AddedMessages | src/store/chatStore.ts:27-35 | a run of addMessage calls contributes exactly one message per call |
| ChatModel.AddedMessagesInOrder | src/store/chatStore.ts:28-32 | the i-th appended message carries the i-th call's data, fresh id and time stamp |
| ChatModel.RunAddMessages | src/store/chatStore.ts:27-35 | after N addMessage calls, messages is the old list followed by the N new messages in call order; it grew by exactly N and nothing else changed |
| ChatModel.IdsStayUnique | src/store/chatStore.ts:27-48 | message ids stay pairwise distinct when the new id is fresh and a loaded list is itself unique; a feedback update never changes an id |
| ChatModel.AppendFreshId | src/store/chatStore.ts:30-34 | appending a message whose id is fresh keeps the ids unique |
| ChatModel.FeedbackForUnknownIdIsNoOp | src/store/chatStore.ts:40-45 | an id that no message carries leaves the list exactly as it was |
| ChatModel.FeedbackKeepsIdsAndIsIdempotent | src/store/chatStore.ts:40-45 | the update keeps every id in place, and repeating it changes nothing |
| ChatModel.AddFileIsUnchecked | src/store/chatStore.ts:50-61 | addFile always appends one record with a fresh id and the file's name, size and type; there is no validation and no limit |
| ChatModel.WithoutFileDistributes | src/store/chatStore.ts:63-69 | removal distributes over concatenation, so kept files keep their order |
| ChatModel.WithoutFileIdempotent | src/store/chatStore.ts:63-69 | removing an id twice equals removing it once |
| ChatModel.WithoutFileKeepsOthers | src/store/chatStore.ts:63-69 | every file with a different id is kept |
| ChatModel.WithoutAbsentIdIsNoOp | src/store/chatStore.ts:63-69 | an id that no pending file carries leaves the list unchanged |
| ChatStore.LocalStorage.GetItem | src/store/chatStore.ts:82 | returns the record under the key exactly when the key is present |
| ChatStore.LocalStorage.SetItem | src/store/chatStore.ts:111-114 | on success the key maps to the value; on failure nothing changes; returns whether it succeeded |
| ChatStore.LocalStorage.RemoveItem | src/store/chatStore.ts:105 | the key is gone and every other key is kept |
| ChatStore.Store.constructor | src/store/chatStore.ts:11-17 | the store starts closed, not fullscreen, light, with no messages, no files, not loading, no modal, and no save pending |
| ChatStore.Store.ToggleChat | src/store/chatStore.ts:20 | the new state is Apply(old, ToggleChat), which flips isOpen only; no save is scheduled |
| ChatStore.Store.ToggleFullscreen | src/store/chatStore.ts:21-22 | the new state is Apply(old, ToggleFullscreen), which flips isFullscreen only |
| ChatStore.Store.ToggleTheme | src/store/chatStore.ts:23-24 | the new state is Apply(old, ToggleTheme), which swaps light and dark only |
| ChatStore.Store.SetTheme | src/store/chatStore.ts:25 | the new state is Apply(old, SetTheme(t)); no save is scheduled |
| ChatStore.Store.AddMessage | src/store/chatStore.ts:27-38 | the new state is Apply(old, AddMessage(data, id, now)), one message appended last; exactly one save is scheduled |
| ChatStore.Store.UpdateMessageFeedback | src/store/chatStore.ts:40-48 | the new state is Apply(old, UpdateMessageFeedback(id, f)); exactly one save is scheduled |
| ChatStore.Store.AddFile | src/store/chatStore.ts:50-61 | the new state is Apply(old, AddFile(file, id)) |
| ChatStore.Store.RemoveFile | src/store/chatStore.ts:63-69 | the new state is Apply(old, RemoveFile(id)) |
| ChatStore.Store.ClearFiles | src/store/chatStore.ts:71 | the new state is Apply(old, ClearFiles) |
| ChatStore.Store.SetLoading | src/store/chatStore.ts:73 | the new state is Apply(old, SetLoading(b)) |
| ChatStore.Store.OpenFeedbackModal | src/store/chatStore.ts:75 | the new state is Apply(old, OpenFeedbackModal) |
| ChatStore.Store.HideFeedbackModal | src/store/chatStore.ts:77 | the new state is Apply(old, HideFeedbackModal) |
| ChatStore.Store.ClearChat | src/store/chatStore.ts:79 | the new state is Apply(old, ClearChat) |
| ChatStore.Store.LoadChatFromStorage | src/store/chatStore.ts:81-107 | nothing stored: no change. Corrupt record: the state is unchanged, the key is removed and "loadChatFromStorage" is reported. Parsed record: messages and theme are replaced and nothing else changes |
| ChatStore.Store.SaveChatToStorage | src/store/chatStore.ts:109-122 | on success the key holds the messages and theme snapshot, taken when the save runs; on failure storage is unchanged and "saveChatToStorage" is reported; the state is never touched |
| ChatStore.Store.FlushScheduledSave | src/store/chatStore.ts:37 | one scheduled save fires: it saves the state as it is now, and one save fewer is pending |
| ChatStore.SaveThenReload | src/store/chatStore.ts:81-122 | a successful save followed by a load keeps the theme and the number of messages; each message keeps its id, content, sender, feedback, instant and file metadata |
| ChatStore.ReloadedState | src/store/chatStore.ts:81-122 | loading the snapshot of a state restores it: the same theme and number of messages, each message the same after reload, and the other fields untouched |
| ChatStore.OpenOverCorruptRecord | src/store/chatStore.ts:81-107 | a store opening over a corrupt record keeps the initial state, and the record is deleted |
| Persistence.EncodeDate | src/store/chatStore.ts:113 | JSON.stringify writes a valid date as the ISO text of its instant, and an invalid date, and only that, as null |
| Persistence.DecodeDate | src/store/chatStore.ts:95 | new Date gives the invalid date exactly for unparsable text, and the instant named by ISO text |
| Persistence.SnapshotOf | src/store/chatStore.ts:111-114 | the saved record holds the theme and one serialised message per message, in place |
| Persistence.DateRoundTrip | src/store/chatStore.ts:95 | a valid timestamp comes back as the same instant; an invalid one comes back as the epoch |
| Persistence.EncodeFiles | src/store/chatStore.ts:113 | each file is serialised in place, keeping its metadata |
| Persistence.EncodeMessages | src/store/chatStore.ts:113 | each message is serialised in place |
| Persistence.DecodeMessages | src/store/chatStore.ts:92-96 | each stored message is rebuilt in place, with its timestamp parsed back |
| Persistence.Interpret | src/store/chatStore.ts:82-101 | nothing is stored iff the value is absent or empty; the record is discarded iff it is corrupt; otherwise every stored message is restored, and the theme is restored or falls back to light |
| Persistence.SaveThenLoad | src/store/chatStore.ts:92-113 | reading back a saved snapshot restores the theme and every message, with the same id, content, sender, feedback, instant and file metadata, and each File reduced to {} |
| Persistence.ReloadIsStable | src/store/chatStore.ts:92-113 | saving and loading a reloaded conversation again changes nothing |
| Admission.Judge | src/components/MessageInput.tsx:39-51 | a file is admitted iff it is valid and the count is below MAX_FILES; a valid file over the limit hits the limit; an invalid file is rejected with its validation message, whatever the count |
| Admission.Admitted | src/components/MessageInput.tsx:38-52 | a batch adds at most one upload per selected file |
| Admission.AdmittedAreValid | src/components/MessageInput.tsx:39-42 | every admitted upload is the record of some selected file files[j] that passed validation and was admitted, under its own id ids[j] |
| Admission.ValidCount | src/components/MessageInput.tsx:39-40 | the number of files that pass validation: all of them, none of them, or anything in between |
| Admission.AdmittedCount | src/components/MessageInput.tsx:36-52 | below the limit, every valid file of the batch is admitted; at or over it, none is |
| Admission.SnapshotCountAdmitsWholeBatch | src/components/MessageInput.tsx:34-60 | starting below MAX_FILES, a batch of valid files is admitted whole, whatever its size: the i-th added upload is the record of the i-th file under the i-th id, and the pending list grows by the batch size |
| Admission.OverflowExample | src/components/MessageInput.tsx:38-52 | two pending files plus a batch of three valid files leave five pending, more than MAX_FILES |
| Admission.NothingAdmittedWhenFullOrInvalid | src/components/MessageInput.tsx:38-51 | nothing is admitted when the list is full, and an invalid file is never admitted |
| MessageInput.SubmittedContent | src/components/MessageInput.tsx:74 | the content is never empty: it is the trimmed text, or "(attached files)" when the text is only whitespace |
| MessageInput.SubmittedContentIsTrimmed | src/components/MessageInput.tsx:74 | the content neither starts nor ends with whitespace |
| MessageInput.AttachDisabled | src/components/MessageInput.tsx:180 | the attach button is disabled exactly when no file could be admitted, whatever it is |
| MessageInput.SendDisabled | src/components/MessageInput.tsx:69-70 | submitting is refused, and at line 227 the send button disabled, exactly when the text is only whitespace and no file is pending |
| MessageInput.AlertFor | src/components/MessageInput.tsx:40-51 | no alert iff the file is admitted; the limit message when the list is full; the validation message when the file is invalid |
| MessageInput.Raised | src/components/MessageInput.tsx:40-51 | at most one alert per file, and none iff the file is admitted |
| MessageInput.Alerts | src/components/MessageInput.tsx:38-52 | a batch raises at most one alert per file |
| MessageInput.EachFileAddedOrAlerted | src/components/MessageInput.tsx:38-52 | each file i of a batch is either added, extending the uploads by its own record and the alerts by nothing, or alerted about, extending the alerts by its own alert and the uploads by nothing |
| MessageInput.AddedPlusAlertedIsBatch | src/components/MessageInput.tsx:38-52 | over a batch, the uploads added and the alerts raised add up to the number of files selected |
| MessageInput.AlertsInOrder | src/components/MessageInput.tsx:38-52 | with a full list, every file raises an alert, and the i-th alert is the one for the i-th file |
| MessageInput.SelectOne | src/components/MessageInput.tsx:38-51 | the forEach callback appends the upload iff Judge admits the file, and otherwise raises its alert; nothing else changes |
| MessageInput.HandleFileSelect | src/components/MessageInput.tsx:34-60 | the pending list gains exactly Admitted(files, ids, count); the alerts are Alerts(files, count), for the count read before the loop; nothing else changes |
| MessageInput.AfterSubmit | src/components/MessageInput.tsx:69-88 | the state after a submit: unchanged when send is disabled; otherwise exactly the store calls addMessage, clearFiles and setLoading(true) in order, which append one user message carrying the pending files, empty the pending list and start loading |
| MessageInput.OnSubmit | src/components/MessageInput.tsx:69-88 | a message is sent iff send is not disabled; the new state is AfterSubmit of the old one (unchanged when disabled; otherwise one user message with the submitted content and the pending files as they were, no file pending, loading); one save is scheduled iff a message was sent |
| MessageInput.DeliverBotReply | src/components/MessageInput.tsx:89-96 | one bot message with a BOT_RESPONSES text and no files is appended, and loading stops |
| MessageInput.SubmitThenReply | src/components/MessageInput.tsx:69-96 | a send and its reply append two messages, the user's first with the pending files and the bot's with none; earlier messages are kept; nothing is pending and loading has stopped |
| MessageInput.HandleKeyDown | src/components/MessageInput.tsx:99-104 | Enter without Shift prevents the default and submits: the new state is AfterSubmit of the old one, with one save scheduled iff a message was sent; any other key changes nothing |
| FileUpload.PanelLimitIsMaxFiles | src/components/FileUpload.tsx:33 | the panel's literal limit 3 equals MAX_FILES |
| FileUpload.ToastFor | src/components/FileUpload.tsx:31-53 | success iff the file is valid and the count is below 3; a warning with "Maximum 3 files allowed" when the list is full; an error carrying the validation message iff the file is invalid |
| FileUpload.Toasts | src/components/FileUpload.tsx:30-54 | exactly one toast per selected file |
| FileUpload.ToastsInOrder | src/components/FileUpload.tsx:30-54 | the i-th toast is the one for the i-th selected file |
| FileUpload.SuccessToastsMatchAdmitted | src/components/FileUpload.tsx:30-54 | the number of success toasts equals the number of files added |
| FileUpload.SelectOne | src/components/FileUpload.tsx:30-54 | the callback appends the upload iff Judge admits the file, and returns that file's toast; nothing else changes |
| FileUpload.HandleFileSelect | src/components/FileUpload.tsx:27-60 | the pending list gains exactly Admitted(files, ids, count); the toasts are Toasts(files, count); nothing else changes |
| FileUpload.HandleRemoveFile | src/components/FileUpload.tsx:62-64 | the new state is Apply(old, RemoveFile(id)) |
| FileUpload.Decimal | src/components/FileUpload.tsx:124 | the count is written as a non-empty string of decimal digits |
| FileUpload.DecimalRoundTrip | src/components/FileUpload.tsx:124 | the digits read back as the number written |
| FileUpload.Tags | src/components/FileUpload.tsx:76-94 | one tag per pending file, in order, showing its name and removing its id |
| FileUpload.Render | src/components/FileUpload.tsx:66-125 | nothing is rendered iff uploads are not allowed; the button is disabled iff three or more files are pending; the counter is the count followed by "/3 files" |
| FileUpload.CounterShowsCount | src/components/FileUpload.tsx:124 | the counter ends in "/3 files", and its leading digits read back as the pending count |
| FileValidation.ValidateFile | src/utils/index.ts:11-23 | valid iff size <= 10 MiB and the type is one of the four allowed; no error iff valid; too large when oversized; wrong type otherwise |
| FileValidation.SizeBoundIsInclusive | src/utils/index.ts:14 | exactly 10 MiB passes the size check; one byte more fails it |
| FileValidation.SizeCheckedBeforeType | src/utils/index.ts:14-20 | an oversized file of a disallowed type reports too large |
| FileValidation.TypeMustMatchExactly | src/utils/index.ts:18-20 | "image/png", "" and "TEXT/PLAIN" are rejected as the wrong type, and "text/plain" is accepted |
| FileValidation.ValidateFileExamples | src/utils/index.ts:11-23 | an 11 MiB PDF is too large, and a 1 KB text file is valid |
| Strings.Includes | src/utils/emailValidation.ts:20 | includes holds exactly when the substring occurs at some index |
| Strings.Utf16Length | src/utils/emailValidation.ts:11 | the length in UTF-16 code units lies between the number of characters and twice that, and equals it for text within the Basic Multilingual Plane |
| Strings.Trim | src/components/MessageInput.tsx:70 | trim never lengthens the text, leaves nothing exactly when every character is whitespace, and otherwise starts and ends with a non-whitespace character |
| Strings.TrimEmptyIff | src/components/MessageInput.tsx:70 | trimming leaves nothing exactly when every character is whitespace |
| Strings.TrimEdges | src/components/MessageInput.tsx:74 | a trimmed string neither starts nor ends with whitespace |
| EmailValidation.EmailPattern | src/utils/emailValidation.ts:15 | an address that passes the test contains an '@' and has at least six characters |
| EmailValidation.EmailPatternIsRegex | src/utils/emailValidation.ts:2 | the decision procedure accepts exactly the strings the expression matches: a local part, an '@', a host, a '.' and two or more letters |
| EmailValidation.PatternHasOneAt | src/utils/emailValidation.ts:2 | an address that passes the pattern has exactly one '@' |
| EmailValidation.PatternEndsWithLetter | src/utils/emailValidation.ts:2 | an address that passes the pattern ends with a letter, so it never ends with a dot |
| EmailValidation.ValidateEmail | src/utils/emailValidation.ts:4-35 | there is a message iff the address is invalid; valid iff it is empty or has length <= 254, matches the pattern, has no ".." and does not start with a dot |
| EmailValidation.TooLongWins | src/utils/emailValidation.ts:11-13 | more than 254 code units gives "too long", whatever else is wrong |
| EmailValidation.FailureMessages | src/utils/emailValidation.ts:15-32 | for a non-empty address within the length bound, the message follows the first defect: pattern, then "..", then a leading dot |
| EmailValidation.EmptyEmailIsValid | src/utils/emailValidation.ts:7-9 | the empty address is valid |
| EmailValidation.ConsecutiveDotsExample | src/utils/emailValidation.ts:20-25 | "a..b@x.com" passes the pattern and fails with the consecutive-dots message |
| EmailValidation.GoodAddressExample | src/utils/emailValidation.ts:4-35 | "good@example.com" is valid |
| EmailValidation.ValidateRule | src/utils/emailValidation.ts:47-51 | accept iff the value is absent or valid; otherwise reject with validateEmail's message |
| ThemeDetection.DetectPageTheme | src/utils/themeDetection.ts:2-40 | the result is dark exactly when any of the four indicators holds, so the order of the checks does not matter |
| ThemeDetection.ActiveSignals | src/utils/themeDetection.ts:8-37 | the set holds each of the four dark signals exactly when the page raises it |
| ThemeDetection.DarkIffSomeSignal | src/utils/themeDetection.ts:2-40 | dark iff some signal is raised, and light iff none is |
| ThemeDetection.MoreSignalsStayDark | src/utils/themeDetection.ts:2-40 | raising more signals never turns dark into light |
| ThemeDetection.DarkClassOverrides | src/utils/themeDetection.ts:8-16 | a dark or dark-mode class on html or body gives dark, whatever the other signals are |
| ThemeDetection.DataThemeRule | src/utils/themeDetection.ts:19-22 | body's data-theme is never consulted; html data-theme "dark" gives dark; "Dark" does not count |
| ThemeDetection.ColorSchemeContainingDark | src/utils/themeDetection.ts:25-29 | a color-scheme of "light dark" gives dark |
| ThemeDetection.OsPreferenceNeedsMatchMedia | src/utils/themeDetection.ts:32-37 | without matchMedia, the OS preference makes no difference |

## Left out

- The zustand `persist` middleware (src/store/chatStore.ts:8, 124-127) is library code that
  is not part of this model.
  - It writes its own `{state, version}` envelope under the same key that the hand-written
    load and save use. The two formats collide: when `loadChatFromStorage` reads such an
    envelope, it finds no top-level `messages` or `theme`, so it sets `[]` and light.
  - The model has the hand-written load and save only.
- `safeLocalStorage` and `handleError` are not part of this model.
  - Storage is a map with a write that may fail.
  - The error sink is the returned `ErrorReport`. `console.warn` and `console.error` are
    dropped.
- ChatStore.LocalStorage.RemoveItem: it always succeeds. A `removeItem` that fails is not
  modelled, because `safeLocalStorage` is not part of this model; only a failing write is.
- JSON text is not modelled. A stored record is what `JSON.parse` yields: absent, empty,
  corrupt, or a snapshot whose `messages` and `theme` may each be missing.
  - "Corrupt" covers both a parse that throws and a `messages.map` that throws.
  - ISO-8601 text is represented by the instant it names.
  - A stored theme string other than "light" or "dark" is not modelled: `Theme` has only
    those two values.
- Persistence.Interpret: for a parsed record, its contract states the theme and the
  number of restored messages. Their contents are stated by `Persistence.SaveThenLoad`
  for records the store itself wrote.
- Timers, interleaving and delays are not modelled: the 100 ms auto-save, the 1–2 s bot
  delay and the welcome timer.
  - A scheduled save is a counter and a later `FlushScheduledSave` step.
  - The bot reply is the separate `DeliverBotReply` step.
- `generateBotResponse` uses `Math.random`. It is the `choice` index into `BOT_RESPONSES`.
- `watchPageTheme` and `useThemeSync` register DOM and media listeners, so they are out.
  `detectPageTheme` reads a record of the signals instead of the DOM.
- `formatFileSize` uses floating point (`Math.log`, `toFixed`), so it is out. The file
  tags carry the name and the remove id but not the formatted size.
- React rendering, styling, animation, `reset()` of the form and the file input's
  `value = ""` reset are not modelled.
  - Of the rendered output, only the upload panel's structure is modelled: the tags, the
    button's disabled flag and the counter text.
- The error classes in `src/types/errors.ts` are not used by this logic.
- `URL.createObjectURL` and the react-hook-form plumbing are browser and library calls, so
  they are out.
- `MessageInput`'s `handleRemoveFile` (src/components/MessageInput.tsx:62-67) is the same
  single `removeFile` call as `FileUpload.HandleRemoveFile`, and it is not written twice.
- MessageInput.Alerts, FileUpload.Toasts: their own contracts only bound or fix the length.
  Their contents per file are stated by `MessageInput.EachFileAddedOrAlerted` (file by
  file), `MessageInput.AlertsInOrder` (for a full list), `FileUpload.ToastsInOrder` and
  `FileUpload.SuccessToastsMatchAdmitted`. Below the limit, the alerts of a whole batch are
  stated only file by file, not by index.
