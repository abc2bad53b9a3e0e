# Barta-AI core, modelled in Dafny

Barta-AI has two halves. One is a browser video room: a Zustand store, a
WebSocket signaling service and a WebRTC hook over `simple-peer`. The other is
a meeting pipeline: Google speech transcription, LLM summaries and a task list
parsed from LLM output. This project models the logic of both halves that does
not depend on rendering, the network or a model:

- `media.dfy` models `toggleMediaTrack`. A stream is two `array<bool>` of
  `enabled` flags, flipped in place by a loop.
- `room_types.dfy` holds participants, rooms and partial updates, and the
  `{ ...p, ...u }` merge.
- `room_store.dfy` holds the store as a class with `currentRoom` and
  `localParticipant`, its two setters, and the merge-by-identifier
  `updateParticipant`.
- `room_service.dfy` covers:
  - the module-level `ws` slot and sockets with a ready state and a log of
    transmitted messages;
  - `createRoom`, `joinRoom`, the `join` announcement on open, and the
    send-only-when-OPEN gate;
  - the `participant-joined` / `participant-left` dispatcher.
- `webrtc.dfy` models the hook's `peers` map as a class over `map<string, Peer>`.
  It has `createPeer`, the three `handle*` operations, the peer's
  `signal`/`stream`/`error` events as methods, and the effect cleanup. A
  re-render that changes the local participant or the room re-runs the effect,
  so a cleanup registered by the previous run tears the mesh down. A peer is its
  role, its captured render values, a destroyed flag and the signals fed to it.
- `room_controls.dfy` composes the store and the toggle as the microphone and
  camera buttons do.
- `transcription.dfy` covers:
  - the `chunk_audio` timeline loop;
  - the `transcribe_chunk` offset shift;
  - `build_phrases`, a loop proved against a run-splitting specification;
  - the `process_audio` pipeline.
- `tasks.dfy` models the `parsedTasks` computation of the task tab: the second
  keyword, the label values, the `"\n*"` split, trim and filter, and the flatten.
- `summary.dfy` covers `extract_section`, the formatted summary, the transcript
  join and `process_meeting_summary`.
- `strings.dfy`, `sequences.dfy` and `wrappers.dfy` are shared helpers:
  - JavaScript `indexOf`, `split` and `trim`;
  - Python `strip` and `"\n".join`;
  - the whitespace and `\d` character classes;
  - flattening and mapping;
  - `Option`.

Three behaviours of the source are stated by contracts:

- An `error` event of a peer that was replaced in the map deletes its
  replacement's entry. `WebRTC.PeerManager.OnError` removes the key, not the
  peer.
- A toggle routed through `updateParticipant` leaves the store's own local
  participant with its old flag.
- A remote stream stores a new room. The render that follows changes
  `createPeer` and so re-runs the effect, whose cleanup destroys every peer,
  the one that delivered the stream included
  (`WebRTC.PeerManager.OnStreamThenRender`).

## Model

| member | source | states |
|---|---|---|
| Media.MediaStream.Tracks | src/utils/mediaUtils.ts:4 | the tracks of the requested kind are the audio array for `audio` and the video array for `video` |
| Media.ToggleResult | src/utils/mediaUtils.ts:5-18 | the reported state is the opposite of the first track's, and false with no track |
| Media.Toggled | src/utils/mediaUtils.ts:8-16 | with no track nothing changes; otherwise every flag becomes the negation of the first one's, and the length is kept |
| Media.ToggledAgreesWithResult | src/utils/mediaUtils.ts:8-18 | after a toggle every track equals the returned value, and toggling again would return its negation |
| Media.ToggleTwice | src/utils/mediaUtils.ts:8-16 | two toggles set every track to the first track's original state; they restore the original flags if and only if all tracks agreed |
| Media.ToggleMediaTrack | src/utils/mediaUtils.ts:1-19 | no stream, or no track of the kind: returns false and changes nothing; otherwise it returns the negation of the first flag and sets every track of the kind to it, leaving the other kind untouched |
| RoomTypes.Merge | src/store/useRoomStore.ts:22 | each field present in the partial overrides; each absent field keeps the participant's value |
| RoomTypes.MergeFullUpdate | src/store/useRoomStore.ts:22 | merging a full spread `{ ...q }` yields `q`; merging an empty partial changes nothing |
| RoomTypes.MergeIdempotent | src/store/useRoomStore.ts:22 | merging the same partial twice equals merging it once |
| RoomStore.UpdatedParticipants | src/store/useRoomStore.ts:21-23 | same length and order; every entry with the identifier (duplicates included) is merged with the update, every other entry is kept |
| RoomStore.UpdatedRoom | src/store/useRoomStore.ts:25-31 | the room keeps its identifier and size, and entries with another identifier are unchanged |
| RoomStore.UpdateAbsentId | src/store/useRoomStore.ts:21-23 | an identifier no entry carries leaves the list equal to before |
| RoomStore.UpdateKeepsIds | src/store/useRoomStore.ts:21-23 | an update without a new `id` keeps every identifier in place and is idempotent |
| RoomStore.UpdateRenames | src/store/useRoomStore.ts:22 | an update whose `id` names another identifier renames the matching entry: its identifier becomes the update's `id`, so it no longer carries the old one |
| RoomStore.Store.constructor | src/store/useRoomStore.ts:13-14 | both `currentRoom` and `localParticipant` start out null |
| RoomStore.Store.SetCurrentRoom | src/store/useRoomStore.ts:15 | replaces the room wholesale and leaves the local participant unchanged |
| RoomStore.Store.SetLocalParticipant | src/store/useRoomStore.ts:16 | replaces the local participant and leaves the room unchanged |
| RoomStore.Store.UpdateParticipant | src/store/useRoomStore.ts:17-32 | with no room the whole state is unchanged; otherwise the room becomes the merged room; the local participant is never changed |
| RoomService.WebSocket.constructor | src/services/roomService.ts:33 | a new socket is bound to its room and participant, is CONNECTING and has sent nothing |
| RoomService.JoinMessage | src/services/roomService.ts:37-44 | the announcement is a `join` for the room from the participant's identifier, with no target, carrying the participant's name |
| RoomService.NewRoom | src/services/roomService.ts:19-22 | the new room has the given identifier and exactly `[localParticipant]` |
| RoomService.RemoveId | src/services/roomService.ts:94 | the filtered list is no longer than before and holds no entry with the identifier |
| RoomService.RemoveIdMembers | src/services/roomService.ts:94 | an entry survives the filter if and only if it was present and carries another identifier |
| RoomService.RemoveIdConcat | src/services/roomService.ts:94 | the filter works piecewise over concatenation, so survivors keep their order |
| RoomService.RemoveIdAbsent | src/services/roomService.ts:94 | filtering an identifier nobody carries leaves the list as it was |
| RoomService.JoinedName | src/services/roomService.ts:78 | an announcement gives its name; any other payload gives the empty name |
| RoomService.HandleMessage | src/services/roomService.ts:73-98 | `join`/`offer`/`answer`/`ice-candidate` and the local sender's messages change nothing; a join from another sender appends one participant with both flags on and no stream (or throws when `data` is absent); a leave filters the sender out; the room identifier is kept |
| RoomService.HandleMessageKeepsLocal | src/services/roomService.ts:73-98 | no message removes the local participant from the room |
| RoomService.RepeatedJoinDuplicates | src/services/roomService.ts:74-87 | a second join for an identifier already present yields a duplicate identifier |
| RoomService.SignalingChannel.constructor | src/services/roomService.ts:8 | the `ws` slot starts out null |
| RoomService.SignalingChannel.Connect | src/services/roomService.ts:32-33 | a fresh CONNECTING socket for the room and participant replaces the slot |
| RoomService.SignalingChannel.CreateRoom | src/services/roomService.ts:18-26 | returns the room with only the local participant and connects a fresh socket to that room |
| RoomService.SignalingChannel.JoinRoom | src/services/roomService.ts:28-30 | only connects a fresh socket to the given room |
| RoomService.SignalingChannel.SendSignalingMessage | src/services/roomService.ts:61-65 | the message is appended to the current socket's output exactly when that socket is OPEN, and dropped otherwise |
| RoomService.SignalingChannel.OnOpen | src/services/roomService.ts:35-45 | a CONNECTING socket becomes OPEN and exactly one `join` is sent through the current `ws` |
| RoomService.SignalingChannel.OnClose | src/services/roomService.ts:56-58 | the socket is CLOSED and has transmitted nothing more |
| RoomService.SignalingChannel.HandleSignalingMessage | src/services/roomService.ts:67-99 | with no room or no local participant nothing changes; otherwise the store's room becomes the dispatcher's new room, if any |
| WebRTC.FindIndex | src/hooks/useWebRTC.ts:31 | -1 if and only if no entry has the identifier; otherwise the first position carrying it |
| WebRTC.WithStream | src/hooks/useWebRTC.ts:33-37 | the first entry with the identifier gets the stream; every other entry and every identifier is kept |
| WebRTC.WithStreamIsUpdate | src/hooks/useWebRTC.ts:33-37 | with unique identifiers, attaching a stream is the store's merge with only `stream` present |
| WebRTC.NegotiationMessage | src/hooks/useWebRTC.ts:20-26 | an initiator sends `offer` and a responder `answer`, addressed to the target, from the local identifier, carrying the signal |
| WebRTC.Peer.constructor | src/hooks/useWebRTC.ts:13-17 | a new peer is live, has been fed nothing, and holds the role and render values it captured |
| WebRTC.Peer.Signal | src/hooks/useWebRTC.ts:74 | the signal is fed to the peer |
| WebRTC.Peer.Destroy | src/hooks/useWebRTC.ts:49 | the peer is destroyed |
| WebRTC.PeerManager.constructor | src/hooks/useWebRTC.ts:7-8 | the map starts empty, with the store's current values |
| WebRTC.PeerManager.Rerender | src/hooks/useWebRTC.ts:8-90 | a render takes the store's current values; when the local participant or the room changed and the previous effect run passed its guard, every peer is destroyed and the map cleared; otherwise the map and its peers are untouched |
| WebRTC.PeerManager.OnStreamThenRender | src/hooks/useWebRTC.ts:29-90 | a stream that stores a room other than the rendered one, followed by the render, destroys every peer and empties the map |
| WebRTC.PeerManager.CreatePeer | src/hooks/useWebRTC.ts:10-55 | without a local stream it returns null and changes nothing; otherwise a fresh live peer is stored under the target, replacing any entry |
| WebRTC.PeerManager.HandleNewParticipant | src/hooks/useWebRTC.ts:60-64 | creates an initiator peer only when no entry exists, capturing the room identifier, the local identifier and the current room; an existing entry is untouched |
| WebRTC.PeerManager.HandleOffer | src/hooks/useWebRTC.ts:66-76 | feeds the signal to the existing entry, or else to a new responder capturing the room identifier, the local identifier and the current room; no other peer is touched |
| WebRTC.PeerManager.HandleAnswer | src/hooks/useWebRTC.ts:78-83 | feeds an existing entry only; an unknown sender changes nothing |
| WebRTC.PeerManager.OnSignal | src/hooks/useWebRTC.ts:19-27 | the negotiation message goes out through the OPEN gate |
| WebRTC.PeerManager.OnStream | src/hooks/useWebRTC.ts:29-45 | when the captured room has the target, the store's room becomes the captured room with the stream attached; otherwise nothing changes |
| WebRTC.PeerManager.OnError | src/hooks/useWebRTC.ts:47-51 | the peer is destroyed and the key of its target removed; for a peer the map holds, exactly its own entry goes |
| WebRTC.PeerManager.Cleanup | src/hooks/useWebRTC.ts:86-89 | every peer that was in the map is destroyed and the map is empty |
| WebRTC.OneEntryPerPeer | src/hooks/useWebRTC.ts:53 | the map never holds one peer under two identifiers |
| RoomControls.WithFlag | src/components/RoomControls.tsx:16 | the spread sets only the toggled kind's flag |
| RoomControls.Toggle | src/components/RoomControls.tsx:13-23 | the tracks are toggled and the room's entries for the local identifier are merged with the new flag, while the store's local participant is unchanged |
| RoomControls.StaleLocalFlag | src/components/RoomControls.tsx:13-17 | after a toggle that changes the state, the room's copy carries the new flag and the local participant the old one |
| Transcription.Runs | backend/app/services/transcription_google.py:111-135 | runs are non-empty, there are none exactly when there are no words, and the last run ends with the last word |
| Transcription.RunsPartition | backend/app/services/transcription_google.py:111-135 | the runs laid end to end are the words, in order |
| Transcription.RunsBreakAtPauses | backend/app/services/transcription_google.py:116-129 | between consecutive runs the pause exceeds the threshold strictly; inside a run none does |
| Transcription.RunCount | backend/app/services/transcription_google.py:111-135 | one run more than long pauses, at most one per word |
| Transcription.PhraseCount | backend/app/services/transcription_google.py:103-137 | no words give no phrases; otherwise the phrase count is one plus the long pauses and at most the word count |
| Transcription.Texts | backend/app/services/transcription_google.py:113-128 | the texts of a run's words, one per word, in order |
| Transcription.PhraseOf | backend/app/services/transcription_google.py:120-134 | a phrase starts at its first word's start and ends at its last word's end; a one-word phrase has that word's text |
| Transcription.PhraseWords | backend/app/services/transcription_google.py:123 | a phrase's text splits back into its words' texts when no word holds a space |
| Transcription.PhrasesOf | backend/app/services/transcription_google.py:120-134 | one phrase per run, from its first word's start to its last word's end, with the texts joined by single spaces |
| Transcription.Phrases | backend/app/services/transcription_google.py:103-137 | no phrase exactly when no word; the last phrase ends where the last word ends |
| Transcription.BuildPhrases | backend/app/services/transcription_google.py:103-137 | the loop returns the phrases of the run specification |
| Transcription.Duration | backend/app/services/transcription_google.py:57 | a chunk lasts its length in milliseconds divided by 1000, never negative |
| Transcription.TotalDuration | backend/app/services/transcription_google.py:56-64 | the summed durations are never negative |
| Transcription.ChunkTimeline | backend/app/services/transcription_google.py:49-66 | one entry per chunk; the first starts at 0; each ends at its start plus its duration; each next one starts where the previous ended |
| Transcription.Shifted | backend/app/services/transcription_google.py:93-99 | every word is moved by the offset, in order |
| Transcription.ShiftKeepsRuns | backend/app/services/transcription_google.py:93-99 | shifting every word by one offset yields the shifted runs, so phrase breaks are unchanged |
| Transcription.TranscribeChunk | backend/app/services/transcription_google.py:90-101 | the loop returns every result's words, in order, shifted by the chunk start |
| Transcription.AllWords | backend/app/services/transcription_google.py:156-160 | no chunk gives no word; a single chunk gives its words unshifted |
| Transcription.AllWordsStep | backend/app/services/transcription_google.py:157-160 | each chunk adds its words shifted by the chunk's start on the timeline |
| Transcription.ProcessAudio | backend/app/services/transcription_google.py:148-173 | one segment per phrase of all words at the default threshold 0.4, in order, with the text unchanged and the times formatted |
| Transcription.FormatTranscript | backend/app/services/transcription_google.py:164-171 | one segment per phrase, in order, with the text unchanged and the times formatted |
| Strings.IndexOf | frontend/src/components/meetingContentViewer/tabItems/Tasks.tsx:18 | `indexOf` is -1 when the pattern does not occur from the start position; otherwise it is the first occurrence at or after it |
| Strings.FirstOccurrence | frontend/src/components/meetingContentViewer/tabItems/Tasks.tsx:25-27 | a pattern not met before the end of `pre + pat` is first found at the end of `pre`, as a regex search finds the first match |
| Strings.Split | frontend/src/components/meetingContentViewer/tabItems/Tasks.tsx:35 | at least one piece, and no piece contains the separator |
| Strings.JoinSplit | frontend/src/components/meetingContentViewer/tabItems/Tasks.tsx:35 | joining the pieces with the separator gives back the text |
| Strings.SplitJoin | backend/app/services/summaryTask_service.py:96 | splitting a join of separator-free pieces gives back the pieces |
| Strings.TrimStart | frontend/src/components/meetingContentViewer/tabItems/Tasks.tsx:25-27 | what `\s*` skips: the result is a suffix whose dropped prefix is whitespace and whose first character is not |
| Strings.Trim | frontend/src/components/meetingContentViewer/tabItems/Tasks.tsx:37 | the result is trimmed and is the text between whitespace-only ends |
| Strings.TrimFramed | frontend/src/components/meetingContentViewer/tabItems/Tasks.tsx:37 | trimming spaces, a trimmed text and spaces gives that text, for JavaScript's `trim` and Python's `strip` alike |
| Strings.TrimTrimmed | frontend/src/components/meetingContentViewer/tabItems/Tasks.tsx:37 | trimming a trimmed text changes nothing |
| Tasks.SecondIndexOf | frontend/src/components/meetingContentViewer/tabItems/Tasks.tsx:18 | -1 if and only if the keyword occurs fewer than twice; otherwise an occurrence preceded by exactly one other |
| Tasks.SecondOccurrence | frontend/src/components/meetingContentViewer/tabItems/Tasks.tsx:18 | the second-occurrence search for the action-plan keyword |
| Tasks.FirstLine | frontend/src/components/meetingContentViewer/tabItems/Tasks.tsx:26-27 | the lazy capture up to `\n` or the end: a prefix without a line break, ended by one or by the end |
| Tasks.LabelValue | frontend/src/components/meetingContentViewer/tabItems/Tasks.tsx:26-31 | a missing label gives the default; otherwise a trimmed value without a line break |
| Tasks.LabelValueOfLine | frontend/src/components/meetingContentViewer/tabItems/Tasks.tsx:26-31 | after any text without an earlier label, the label, spaces, a trimmed one-line value and same-line spaces (a `\r` included), ended by a line break or the end, read back that value |
| Tasks.LabelValueAfter | frontend/src/components/meetingContentViewer/tabItems/Tasks.tsx:26-31 | after the first label and its spaces, the value is the trimmed first line of what follows |
| Tasks.EmptyLabelTakesNextLine | frontend/src/components/meetingContentViewer/tabItems/Tasks.tsx:26 | because `\s*` crosses line breaks, a first label with nothing after it on its line takes the next line as its value |
| Tasks.TrimmedFrom | frontend/src/components/meetingContentViewer/tabItems/Tasks.tsx:34-38 | no more items than pieces, each non-empty and trimmed |
| Tasks.NonBlankMembers | frontend/src/components/meetingContentViewer/tabItems/Tasks.tsx:37-38 | a text is an item if and only if it is non-empty and the trim of some piece |
| Tasks.TrimmedFromIsFilter | frontend/src/components/meetingContentViewer/tabItems/Tasks.tsx:34-38 | the filter equals the flattened map of the pieces to their non-blank trims: same items, same order, same repetitions |
| Tasks.TasksNamed | frontend/src/components/meetingContentViewer/tabItems/Tasks.tsx:41-45 | one task per item, in order, all with the same assignee and deadline |
| Tasks.TasksOfParts | frontend/src/components/meetingContentViewer/tabItems/Tasks.tsx:34-45 | fewer tasks than pieces; the k-th task is named by the k-th non-blank trimmed piece after the first, with the shared assignee and deadline |
| Tasks.ParseTaskString | frontend/src/components/meetingContentViewer/tabItems/Tasks.tsx:17-48 | fewer than two keywords give no task |
| Tasks.TasksOfString | frontend/src/components/meetingContentViewer/tabItems/Tasks.tsx:17-48 | no second keyword gives no task; otherwise the k-th task is named by the k-th non-blank trimmed piece of the tail from the second keyword, with that tail's assignee and deadline |
| Tasks.ParseTasks | frontend/src/components/meetingContentViewer/tabItems/Tasks.tsx:15-50 | no text gives no task; one text gives that text's tasks |
| Tasks.ParseTasksAppend | frontend/src/components/meetingContentViewer/tabItems/Tasks.tsx:15-50 | the tasks of concatenated inputs are the concatenated tasks, in input order |
| Tasks.IgnoredText | frontend/src/components/meetingContentViewer/tabItems/Tasks.tsx:15-50 | a text without a second keyword adds no task wherever it stands |
| Summary.TitlesArePlain | backend/app/services/summaryTask_service.py:81 | the four section titles hold no regex metacharacter, so the interpolated pattern matches them literally |
| Summary.SectionEnd | backend/app/services/summaryTask_service.py:81 | the lazy group stops at the first line break followed by a decimal digit, or at the end |
| Summary.ExtractSection | backend/app/services/summaryTask_service.py:79-83 | the placeholder when `title:` is absent; otherwise a stripped text without a section break |
| Summary.ExtractWrittenSection | backend/app/services/summaryTask_service.py:79-83 | after any text without an earlier `title:`, the title, spaces (line breaks included), a stripped section and spaces (blank lines included), with no line break followed by a digit among them and ended by the end or by a line break and a digit, read back that section |
| Summary.ExtractAfter | backend/app/services/summaryTask_service.py:79-83 | after the first `title:`, a body with no line break followed by a digit, ended by the end or by such a break, is extracted as that body stripped |
| Summary.BengaliNumberEndsSection | backend/app/services/summaryTask_service.py:81 | a line starting with a Bengali numeral ends the section before it |
| Summary.FormattedSummary | backend/app/services/summaryTask_service.py:67-77 | the formatted summary starts with the fixed header |
| Summary.FormattedOf | backend/app/services/summaryTask_service.py:67-75 | the header, then the four fixed headings, each followed by the extraction for its title, in fixed order |
| Summary.FormattedSummaryAllMissing | backend/app/services/summaryTask_service.py:67-83 | an answer with none of the titles yields the headings with four placeholders |
| Summary.Dialogues | backend/app/services/summaryTask_service.py:96 | one dialogue per entry, in transcript order |
| Summary.TranscriptText | backend/app/services/summaryTask_service.py:96 | no entry gives the empty text; one entry gives its dialogue |
| Summary.TranscriptLines | backend/app/services/summaryTask_service.py:96 | when no dialogue holds a line break, the lines of the joined text are the dialogues |
| Summary.ProcessMeetingSummary | backend/app/services/summaryTask_service.py:85-105 | both models receive the joined transcript; the summary is the formatted first answer and starts with the header; the action items are the second answer as it is |

## Left out

- WebRTC.PeerManager.Rerender: `roomId` is a constant of the hook, fixed for its whole life. The source lists it among the dependencies, but the Room view that passes it is only mounted once a room is set, and nothing changes that room's identifier while it is mounted.
- Sockets are not real connections. The URL, JSON encoding, `JSON.parse` of incoming messages and the logging `onerror`/`onclose` handlers are left out; `OnClose` only marks the socket closed.
- `uuidv4()` in `createRoom` is a parameter, `newId`.
- RoomService.JoinedName: a `participant-joined` whose `data` has no `name` gives `undefined` in the source and `""` here.
- RoomService.HandleMessage: the `TypeError` thrown for a `participant-joined` without `data` is the outcome `Threw` with no state change. Where the exception propagates is left out.
- The `useEffect` guard (`localParticipant?.stream` and `roomId`) only decides whether a cleanup is registered (`EffectArmed`). Event wiring is left out. The handlers are operations callable at any time because the source never registers them.
- WebRTC.PeerManager.Rerender: React compares dependencies by reference (`Object.is`); the model compares the participant and room by value, so a new object equal to the old one does not re-run the effect here.
- The hook's return value (`Array.from(peers.current.values())`) is left out.
- `simple-peer` internals (negotiation, media transport) are left out. A peer only records its role, destruction and fed signals.
- Participant streams are object references. Their track arrays are only touched by `toggleMediaTrack`; aliasing between participants' streams is not modelled beyond that.
- Audio decoding, `split_on_silence`, the temporary WAV export and the Google Speech call are inputs. Each chunk arrives with its length in milliseconds, its export path and, per result, the words of the first alternative. A result without alternatives, which raises in the source, is not modelled.
- `format_timestamp` is a parameter of `ProcessAudio`. Its float `//`, `%` and formatting are left out.
- Times are exact reals. Python's float rounding in `len(chunk) / 1000` and the sums is not modelled.
- The LLM calls (`generate_meeting_summary`'s model call, `generate_action_items`), their prompts and the sentiment pipeline are parameters or left out. `ProcessMeetingSummary` takes the two models as functions.
- Summary.ExtractSection: the title is matched literally. This equals the regex only for titles without metacharacters, which the four titles used are (see `TitlesArePlain`).
- Strings.IsDecimalDigit: `\d` is modelled by the decimal-digit ranges of the Basic Multilingual Plane only. Digits beyond it are not.
- Strings are sequences of code points. JavaScript indexes UTF-16 code units; the Bengali text involved lies in the Basic Multilingual Plane, where the two agree.
- The `কর্মপরিকল্পনা:` label value (`nameMatch`, default "Unknown Task") is never used by any task, so it is not computed.
- `TranscriptEntry` keeps its other fields (times, speaker name, sentiment) only as data. Nothing but `dialogue` is read.
- `save_transcript` and file I/O are left out.
