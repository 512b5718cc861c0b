# Agent Memo — a Dafny model of the memo services

Agent Memo is a small HTTP API that turns text into speech audio ("memos") through one of
several text-to-speech (TTS) backends, stores the audio, and serves it back. It ships in two
deployments:

- **cache-backed** (`memo-service.ts`, `server.ts`): audio is kept in a platform response cache; memo
  metadata is not kept, so retrieval, listing and deletion answer 501.
- **directory-backed** (`lib/memo-service.mjs`, `index.mjs`): audio files go into a storage directory
  and memos into an in-memory `Map`, which supports get, paginated listing and delete.

This project models the pure logic of both: the speech-markup (SSML) escaping and wrapper, the
voice registry, the TTS mode dispatch and simulated audio layout, memo construction, the
ordered memo store, and the decisions both request handlers make. Upstream HTTP calls, random
ids, timestamps and the simulated sample count are parameters; the response of an upstream call
is an abstract `Ok(bytes) | NotOk(status)`, and each generation reports the upstream request it
would issue (or that none was issued).

Files, one module each:

| file | module | models |
|---|---|---|
| base.dfy | Base | bytes, `Option`, `Result`, the errors the services throw, JavaScript truthiness |
| text.dfy | Text | `toLowerCase` (ASCII) and `trim` |
| types.dfy | Types | the record shapes of `types.ts`; the `memo_<id>.mp3` naming |
| ssml.dfy | Ssml | `escapeSSML`, `createSSML` |
| voices.dfy | Voices | both voice tables, lookup, `isValidVoice`, `getAvailableVoices`, `getVoiceId` |
| tts.dfy | Tts | `generateAudio` of both services, simulation, Edge and ElevenLabs generation |
| memo_store.dfy | MemoStore | the ordered memo map: `getMemo`, `Map.set`, `listMemos`, `deleteMemo` |
| deno_memo.dfy | DenoMemo | cache-backed `createMemo` and `getAudio` |
| node_memo.dfy | NodeMemo | directory-backed `createMemo` and `deleteMemo` with its file |
| http.dfy | Http | request bodies and response payloads |
| deno_server.dfy | DenoServer | the `serve` handler of `server.ts` |
| node_server.dfy | NodeServer | the route handlers of `index.mjs` |

Facts about the code that the model makes explicit:

- The simulated audio is always 10008 bytes long, because the sample count is at least 44100
  (`Tts.SimulationLengthConstant`).
- Input validation (`text`, `voice`) happens in the request handlers; `createMemo` itself checks
  only the voice.
- The modes are named `simulation`, `edge` and `elevenlabs`.
- As written, the directory-backed `createMemo` writes the audio file before the step that throws
  (`NodeMemo.NameLookupBreaksAsWritten`).

## Model

| member | source | states |
|---|---|---|
| Text.LowerFacts | memo-service.ts:113-114 | lowering yields a lower-case string, is the identity on lower-case strings, and is idempotent |
| Text.TrimStart | memo-service.ts:318-324 | the result is a suffix of the input, everything cut off is white space, and it does not start with white space |
| Text.TrimEnd | memo-service.ts:318-324 | the result is a prefix of the input, everything cut off is white space, and it does not end with white space |
| Text.TrimPadded | memo-service.ts:318-324 | `trim` of a string padded with white space on both sides gives back the string when it neither starts nor ends with white space |
| Ssml.ReplaceAll | memo-service.ts:331-336 | a global single-character replace is the identity when the character is absent, and removes every occurrence when the replacement does not contain it |
| Ssml.EscapeIsPerChar | memo-service.ts:330-337 | the five sequential replaces, `&` first, equal an independent per-character substitution |
| Ssml.EscapeSsmlProperties | memo-service.ts:330-337 | the escaped text has no raw `<`, `>`, `"`, `'`; each `&` in it starts one of the five entities; unescaping gives back the input; text without metacharacters is unchanged |
| Ssml.CreateSsml | memo-service.ts:317-325 | the document is the fixed opening `<speak version='1.0' xml:lang='en-US'>` and inner tags, the escaped text, and the closing tags ending in `</speak>`; the text cut out between them unescapes to the input |
| Voices.Lookup | memo-service.ts:113-114 | own-property lookup finds a voice exactly when some entry has the key, and returns that entry's voice |
| Voices.LookupEntry | memo-service.ts:28-94 | in a table with distinct keys, each entry's key resolves to that entry |
| Voices.AvailableVoices | memo-service.ts:102-108 | one `{id, name, gender}` per entry, in table order, with the key as `id` |
| Voices.GetVoiceId | lib/memo-service.mjs:59-62 | returns an id exactly for valid names, and that id is the provider id of the entry under the lower-cased name |
| Voices.ValidIffListed | memo-service.ts:102-115 | a name is valid if and only if its lower-cased form is an `id` of the listing |
| Voices.ListedAreValid | memo-service.ts:102-115 | every listed id is valid and resolves to the entry it was listed from |
| Voices.CaseInsensitive | memo-service.ts:113-115 | names equal up to ASCII case resolve to the same voice and agree on validity |
| Voices.ValidIffVoiceId | lib/memo-service.mjs:52-62 | `isValidVoice` holds exactly when `getVoiceId` returns non-null |
| Voices.DenoVoicesFacts | memo-service.ts:28-94 | the cache-backed table has distinct lower-case keys, all shorter than 8, and every voice has an Edge mapping |
| Voices.NodeVoicesFacts | lib/memo-service.mjs:20-32 | the directory-backed table has distinct lower-case keys shorter than 8 and 20-character provider ids |
| Voices.LookupTooLong | memo-service.ts:113-114 | a key longer than every table key finds nothing |
| Voices.ConstructorAcceptedAsWritten | memo-service.ts:113-115 | as written, any case variant of `constructor` passes the validity check though it is not listed |
| Tts.SimulationAudio | memo-service.ts:222-235 | simulated audio is the header FF FB 90 00 FF FA 1C 80 followed only by zero bytes, `8 + min(2·numSamples, 10000)` bytes long |
| Tts.SimulationLengthConstant | memo-service.ts:223-235 | with at least 44100 samples (duration at least 1 s) the simulated audio is always 10008 bytes |
| Tts.Receive | memo-service.ts:263-271 | an ok upstream answer yields its body; any other yields a provider error carrying the status |
| Tts.EdgeAudio | memo-service.ts:241-272 | without an Edge mapping it throws before any request; otherwise it sends the mapped voice with the SSML document of the text and maps the answer |
| Tts.ElevenLabsAudio | memo-service.ts:277-312 | without an API key it throws before any request; otherwise it posts the text to `<base>/text-to-speech/<elevenlabsId, or id when falsy>` with the key header and maps the answer |
| Types.ParseMode | memo-service.ts:197-209 | each of `simulation`, `edge` and `elevenlabs` selects its mode, and exactly those; any other string is kept as an unrecognised mode |
| Tts.GenerateAudio | memo-service.ts:194-210 | an unknown mode throws without a request; simulation never requests and yields exactly the simulated audio of the sample count; Edge with a mapping sends the mapped voice with the SSML document, and ElevenLabs with a key posts the text to the voice's URL with the key header; the precondition errors of Edge and ElevenLabs come without a request; audio is returned only from simulation or an ok upstream answer |
| Tts.NoRequestNoDependence | memo-service.ts:244-280 | when no request is issued the outcome is the same whatever the upstream would have answered |
| Tts.NodeGenerateAudio | lib/memo-service.mjs:115-149 | without an API key it throws before any request; otherwise it posts to `<base>/text-to-speech/<voiceId>` with a bearer token and maps the answer |
| MemoStore.IndexOf | lib/memo-service.mjs:183 | finds the first position holding the key, or reports that none does |
| MemoStore.GetMemo | lib/memo-service.mjs:154-156 | returns a memo exactly when one is stored under the id, and in a valid store that memo has the id |
| MemoStore.Put | lib/memo-service.mjs:104 | a new key is appended at the end; under an existing key exactly that entry, in its position, is replaced by the new value; entries under other keys are untouched |
| MemoStore.PutMemo | lib/memo-service.mjs:103-104 | storing a memo under its id keeps keys distinct and equal to memo ids, makes the memo retrievable, and changes no other lookup |
| MemoStore.Reverse | lib/memo-service.mjs:165 | the reversed copy holds element `n-1-i` at position `i` |
| MemoStore.Slice | lib/memo-service.mjs:166 | `slice` clamps both bounds to the length and returns the elements between them in order |
| MemoStore.ListMemos | lib/memo-service.mjs:161-177 | `total` is the store size, the page has `min(limit, max(0, total-offset))` memos, the `j`-th is the `(offset+j)`-th newest, and `hasMore` is `offset + limit < total` |
| MemoStore.ListNewestFirst | lib/memo-service.mjs:164-166 | within a page, a memo listed earlier was inserted later |
| MemoStore.PagesConcatenate | lib/memo-service.mjs:164-176 | a page of `a` memos followed by the page of `b` memos starting right after it equals the page of `a + b` memos, so paging never skips or repeats a memo |
| MemoStore.HasMoreIffNextPage | lib/memo-service.mjs:170-176 | for a positive limit, `hasMore` is true exactly when the next page is non-empty |
| MemoStore.DeleteMemo | lib/memo-service.mjs:182-198 | an absent id returns false and changes nothing; a present id returns true and removes exactly that entry, keeping the others in order |
| MemoStore.DeleteFacts | lib/memo-service.mjs:195-197 | after a delete the store is still valid, the id is gone, and every other memo is retrievable as before |
| MemoStore.DeleteTwice | lib/memo-service.mjs:182-188 | a repeated delete returns false and leaves the store unchanged |
| MemoStore.DeleteUndoesPut | lib/memo-service.mjs:182-198 | deleting a memo just stored under a fresh id returns true, hands back that memo and restores the earlier store |
| Types.AudioFilenameInjective | memo-service.ts:136 | distinct ids give distinct `memo_<id>.mp3` names |
| DenoMemo.CreateMemo | memo-service.ts:120-174 | an unknown voice throws before generation; for a valid voice the upstream request is the one generation issues, and a failed generation re-throws its error and leaves the cache unchanged; on success the memo carries the drawn id, the text, the name as supplied and the registry display name, `memo_<id>.mp3`, `<baseUrl>/audio/<file>`, the byte length and `mp3`, and the audio is cached under that URL only when a cache exists |
| DenoMemo.GetAudioAsWritten | memo-service.ts:179-189 | as written, audio is found only under the relative key `/audio/<file>`, and then it is the bytes cached there; never without a cache |
| DenoMemo.GetAudio | memo-service.ts:179-189 | with the key creation stores under, audio is found exactly when cached under `<baseUrl>/audio/<file>` |
| DenoMemo.CreatedAudioMissedAsWritten | memo-service.ts:147-185 | as written, audio cached by a creation under a non-empty base URL is not found by `getAudio` |
| DenoMemo.CreatedAudioServed | memo-service.ts:147-149 | with the matching key, a created memo's audio is served back byte for byte with the recorded length |
| NodeMemo.CreateMemoAsWritten | lib/memo-service.mjs:67-110 | an unknown voice throws before generation or any write; the memo index changes only on success |
| NodeMemo.NodeVoicesIdsAreNotKeys | lib/memo-service.mjs:20-32 | no provider id of the directory-backed table equals one of its keys |
| NodeMemo.NameLookupFails | lib/memo-service.mjs:68-92 | over a table whose ids are never keys, a creation past generation throws after writing its audio file and records no memo |
| NodeMemo.NameLookupBreaksAsWritten | lib/memo-service.mjs:68-92 | with the shipped table, every such creation as written throws and leaves an orphaned file |
| NodeMemo.CreateMemo | lib/memo-service.mjs:67-110 | succeeds exactly for a valid voice, a configured key and an ok answer; for a valid voice the upstream request is the one generation issues, and a failed generation re-throws its error; the memo carries the memo id, the text, the name as supplied and the display name, the file `memo_<fileId>.mp3` and its URL and length; the file is written and the memo stored under its id; every failure leaves the service unchanged, so no audio file is written |
| NodeMemo.CreateThenGet | lib/memo-service.mjs:103-104 | after a successful creation the store is valid, the memo is retrievable by its id, and no other memo changed |
| NodeMemo.TwoIds | lib/memo-service.mjs:81-88 | when the two drawn ids differ, the audio file is not named after the memo id |
| NodeMemo.DeleteMemoFile | lib/memo-service.mjs:182-198 | deletes exactly when the memo exists, then removes its index entry and its audio file and keeps configuration and registry; otherwise nothing changes |
| DenoServer.PostMemo | server.ts:97-139 | an unreadable body gives 500; missing or non-string `text` gives 400 before `voice` is examined; then a bad `voice` gives 400; an unknown voice gives 400 with the requested voice and the full listing; 201 with the memo exactly when creation succeeds, and 500 carrying the thrown error when it throws; after 201 the service is the one creation left, with the audio cached; otherwise nothing changes |
| DenoServer.ModeNameOfEnv | server.ts:19 | `/health` reports the configured `TTS_MODE` string, or `simulation` when it is unset or empty |
| DenoServer.Handle | server.ts:50-186 | `/health` and `/voices` answer for any method; `/audio/` is served from the cache or 404 with the file name, before any memo route; GET `/memo/…`, GET `/memos` and DELETE `/memo/…` give 501 and change nothing; OPTIONS on any other path gives 204 with no content and changes nothing; every request no route matches, and only such a request, answers 404 with the path |
| DenoServer.PersistenceUnsupported | server.ts:141-166 | after any creation, retrieval, listing and deletion still answer 501 |
| DenoServer.CreatedAudioReachable | server.ts:78-94 | the audio of a memo answered 201 is served at its `/audio/` path with the generated bytes |
| NodeServer.Create | index.mjs:64-101 | validation in the same order as the cache-backed handler; 201 with the memo exactly when creation succeeds, 500 carrying the thrown error otherwise; any answer other than 201 leaves the service unchanged |
| NodeServer.Handle | index.mjs:28-135 | GET `/health` answers version 1.0.0 and GET `/voices` the listing; GET `/memo/:id` answers 404 with the id exactly when `getMemo` is null, else the memo; DELETE answers 404 exactly when absent, else `Memo deleted` with the id, removing the index entry and the audio file; listing uses limit 20 and offset 0 when omitted and changes nothing |
| NodeServer.CreateThenFetch | index.mjs:45-57 | a memo answered 201 by `POST /memo` is answered 200 by `GET /memo/<id>` |
| NodeServer.DeleteThenMissing | index.mjs:119-131 | deleting an existing memo answers 200, then fetching or deleting it again answers 404 |
| NodeServer.ListDefaults | index.mjs:104-112 | without query values the page holds the 20 newest memos and `hasMore` says whether more than 20 exist |

## Left out

- Upstream HTTP calls to the Edge and ElevenLabs endpoints: the request is returned as a value and the answer is a parameter; response status text, error bodies and logging are not modelled.
- The URL query string of the Edge request (`mkt=en-US&voice=…`) and its headers; the request records only the voice and the SSML body.
- The fixed parts of both ElevenLabs requests: the `Content-Type` and `Accept: audio/mpeg` headers and the body fields `model_id` (`eleven_monolingual_v1`) and `voice_settings` (stability 0.5, similarity boost 0.75); the request records the URL, the credential and the text.
- The platform cache's expiry (`max-age=600`, `Expires`), the response headers of cached audio, and whether the runtime accepts the relative request URL that `getAudio` builds; the cache is a map from URL to bytes.
- File-system effects beyond a map from file name to bytes: directory creation, write failures, and the failure path of the fire-and-forget `unlink` (the model always removes the file).
- `Math.random`, the artificial delay and the floating-point duration: the sample count is a parameter.
- `crypto.randomUUID`, `randomBytes` and `Date`: ids and timestamps are parameters.
- Express and `serve` routing machinery, CORS headers, static file serving of `/audio` in `index.mjs`, the error middleware's development-mode message, and the startup banners (including the call to an undefined `getTTSMode` in index.mjs).
- `parseInt` of query values: limit and offset are natural numbers; `NaN`, negative and non-numeric values are not modelled.
- `getAudioPath` (a path join) and environment loading.
- Text.LowerFacts: `toLowerCase` is modelled on ASCII letters only; other Unicode case mappings are not modelled.
- Voices.Lookup: own-property lookup; inherited object properties appear only in `Voices.IsValidVoiceAsWritten`.
- DenoMemo.CreateMemo: checks the voice with the corrected own-property lookup; as written, `createMemo(t, "constructor", b)` does not throw the unknown-voice error, since the inherited `Object` is found (first row of Findings).
- DenoServer.PostMemo: validates with the corrected `Voices.IsValidVoice` and creates with `DenoMemo.CreateMemo`; as written, `constructor` and `__proto__` pass validation and creation.
- Failures of the platform cache: `caches.open` and `cache.put` always succeed in the model, so a generated memo is never lost to a cache error after generation.
- A `fetch` that rejects (a network failure throwing a `TypeError`) is not a `Tts.FetchResult`; it would surface like `NotOk`, as a thrown error and a 500 from the handler.
- Voices.ValidIffVoiceId: holds for the corrected own-property check; as written, `constructor` passes `isValidVoice` while `getVoiceId` returns `undefined` (the `id` of the inherited `Object`), so the equivalence fails there (first row of Findings).
- DenoServer.Handle: built on the corrected `Voices.IsValidVoice` and `DenoMemo.GetAudio`; as written, `constructor` and `__proto__` pass validation (in simulation mode `constructor` answers 201 with display name `Object`) and `/audio/` looks up the key of `DenoMemo.GetAudioAsWritten`.
- DenoServer.CreatedAudioReachable: states the intended round trip over the corrected `DenoMemo.GetAudio`; as written, created audio is not found (`DenoMemo.CreatedAudioMissedAsWritten`).
- NodeServer.Create: built on the corrected `NodeMemo.CreateMemo` and `Voices.IsValidVoice`; as written, every creation with a listed voice, a key and an ok answer throws after writing its file and answers 500 (`NodeMemo.NameLookupBreaksAsWritten`), and `constructor` answers 500 rather than 400.
- NodeServer.CreateThenFetch: states the intended create-then-fetch over the corrected `NodeMemo.CreateMemo`; as written, `POST /memo` never answers 201.
- Concurrency between requests: each request is a function of the state before it.

## Findings

| source | as written | input that shows it | evidently intended | confidence | as-written member | corrected member |
|---|---|---|---|---|---|---|
| memo-service.ts:113-114, lib/memo-service.mjs:52-54 | `voices[name.toLowerCase()] !== undefined` reads inherited properties of a plain object | `isValidVoice("Constructor")` is true, though no such voice is listed | valid exactly for listed voice keys | high, not executed | `Voices.ConstructorAcceptedAsWritten` (on `Voices.IsValidVoiceAsWritten`) | `Voices.ValidIffListed` (on `Voices.IsValidVoice`) |
| memo-service.ts:148, memo-service.ts:184 | audio is cached under `<baseUrl>/audio/<file>` but looked up under `/audio/<file>` | create a memo with base URL `https://agent-memo.deno.dev`, then `GET /audio/memo_<id>.mp3` | the lookup uses the key the audio was stored under | medium, not executed | `DenoMemo.CreatedAudioMissedAsWritten` (on `DenoMemo.GetAudioAsWritten`) | `DenoMemo.CreatedAudioServed` (on `DenoMemo.GetAudio`) |
| lib/memo-service.mjs:68, lib/memo-service.mjs:92 | the display name is read from the key-indexed table with the provider id: `voices[voiceId].name` | `createMemo("hi", "june")` with a key set and an ok answer: `voices["21m00Tcm4TlvDq8ikWAM"]` is undefined, so it throws after writing the file | the display name of the voice the name resolved to | high, not executed | `NodeMemo.NameLookupBreaksAsWritten` (on `NodeMemo.CreateMemoAsWritten`) | `NodeMemo.CreateThenGet` (on `NodeMemo.CreateMemo`) |

The request handlers use the corrected definitions.
