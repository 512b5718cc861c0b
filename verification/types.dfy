/** The record shapes of the API (`Voice`, `Memo`, `AudioMetadata`, `MemosResponse`, `TTSService`). */
module Types {
  import opened Base

  datatype Gender = Male | Female

  /** A registry entry: the primary provider id, display name, gender, and the optional
      per-provider identifiers (`edgeVoice`, `elevenlabsId`). */
  datatype Voice = Voice(
    id: string,
    name: string,
    gender: Gender,
    edgeVoice: Option<string>,
    elevenlabsId: Option<string>)

  /** One element of the `/voices` listing; `id` is the registry key, not the provider id. */
  datatype VoiceInfo = VoiceInfo(id: string, name: string, gender: Gender)

  /** The voice snapshot kept in a memo: the name as the caller supplied it and the display name. */
  datatype MemoVoice = MemoVoice(id: string, name: string)

  datatype AudioMetadata = AudioMetadata(filename: string, url: string, length: nat, format: string)

  datatype Memo = Memo(id: string, text: string, voice: MemoVoice, audio: AudioMetadata, createdAt: string)

  datatype Pagination = Pagination(total: nat, limit: nat, offset: nat, hasMore: bool)

  datatype MemosResponse = MemosResponse(memos: seq<Memo>, pagination: Pagination)

  /** The configured backend. The declared type admits three names, but the value is read from
      the environment with a cast, so any other string can reach the dispatch. A mode is built by
      `ParseMode`, so `Unrecognised` never carries one of the three known names. */
  datatype TtsMode = Simulation | Edge | ElevenLabsMode | Unrecognised(name: string)

  /** The `switch` of `generateAudio` over the mode string. */
  function ParseMode(s: string): (m: TtsMode)
    ensures m.Simulation? <==> s == "simulation"
    ensures m.Edge? <==> s == "edge"
    ensures m.ElevenLabsMode? <==> s == "elevenlabs"
    ensures m.Unrecognised? ==> m.name == s
  {
    if s == "simulation" then Simulation
    else if s == "edge" then Edge
    else if s == "elevenlabs" then ElevenLabsMode
    else Unrecognised(s)
  }

  /** `TTS_MODE` from the environment, falling back to `simulation` when unset or empty. */
  function ModeFromEnv(env: Option<string>): TtsMode
  {
    if Truthy(env) then ParseMode(env.value) else Simulation
  }

  /** The stored audio of memo `id` is named `memo_<id>.mp3`. */
  function AudioFilename(id: string): string
  {
    "memo_" + id + ".mp3"
  }

  /** The public link of a stored audio file. */
  function AudioUrl(baseUrl: string, filename: string): string
  {
    baseUrl + "/audio/" + filename
  }

  /** Distinct ids give distinct file names. */
  lemma AudioFilenameInjective(a: string, b: string)
    requires AudioFilename(a) == AudioFilename(b)
    ensures a == b
  {
    var fa, fb := AudioFilename(a), AudioFilename(b);
    assert fa[5..|fa| - 4] == a;
    assert fb[5..|fb| - 4] == b;
  }
}
