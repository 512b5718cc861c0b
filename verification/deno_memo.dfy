/** Memo creation and audio retrieval of the cache-backed service (memo-service.ts). The platform
    cache is a map from request URL to the cached body; expiry is not modelled. */
module DenoMemo {
  import opened Base
  import opened Types
  import opened Voices
  import opened Tts

  /** Cache contents: request URL to the body of the cached response. */
  type AudioCache = map<string, seq<byte>>

  /** The service: its TTS configuration, its voice table, and the cache (absent when not opened). */
  datatype DenoService = DenoService(config: TtsConfig, voices: VoiceTable, cache: Option<AudioCache>)

  /** Values a creation takes from outside the model: the random memo id, the timestamp, the
      simulated sample count and the upstream answer. */
  datatype Draw = Draw(memoId: string, createdAt: string, numSamples: nat, response: FetchResult)

  /** The memo or the error thrown, the service afterwards, and the upstream request issued. */
  datatype Creation = Creation(memo: Result<Memo>, service: DenoService, sent: Option<UpstreamRequest>)

  /** The audio `createMemo` produced: the generation result, if it succeeded. */
  function Generated(svc: DenoService, text: string, voiceName: string, draw: Draw): Option<seq<byte>>
  {
    match FindVoice(svc.voices, voiceName)
    case None => None
    case Some(voice) =>
      match GenerateAudio(svc.config, text, voice, draw.numSamples, draw.response).audio
      case Success(bytes) => Some(bytes)
      case Failure(_) => None
  }

  /** `createMemo(text, voiceName, baseUrl)`. */
  function CreateMemo(svc: DenoService, text: string, voiceName: string, baseUrl: string, draw: Draw): (r: Creation)
    ensures !IsValidVoice(svc.voices, voiceName) ==> r == Creation(Failure(UnknownVoice(voiceName)), svc, None)
    ensures IsValidVoice(svc.voices, voiceName) ==>
      var g := GenerateAudio(svc.config, text, FindVoice(svc.voices, voiceName).value, draw.numSamples, draw.response);
      && r.sent == g.sent
      && (g.audio.Failure? ==> r.memo == Failure(g.audio.error))
    ensures r.memo.Failure? ==> r.service == svc
    ensures r.service.config == svc.config && r.service.voices == svc.voices
    ensures r.service.cache.Some? <==> svc.cache.Some?
    ensures r.memo.Success? <==> Generated(svc, text, voiceName, draw).Some?
    ensures r.memo.Success? ==>
      var m := r.memo.value;
      var bytes := Generated(svc, text, voiceName, draw).value;
      && m.id == draw.memoId && m.text == text && m.createdAt == draw.createdAt
      && m.voice == MemoVoice(voiceName, FindVoice(svc.voices, voiceName).value.name)
      && m.audio == AudioMetadata(AudioFilename(m.id), AudioUrl(baseUrl, AudioFilename(m.id)), |bytes|, "mp3")
      && (svc.cache.Some? ==> r.service.cache.value == svc.cache.value[m.audio.url := bytes])
  {
    match FindVoice(svc.voices, voiceName)
    case None => Creation(Failure(UnknownVoice(voiceName)), svc, None)
    case Some(voice) =>
      var gen := GenerateAudio(svc.config, text, voice, draw.numSamples, draw.response);
      match gen.audio
      case Failure(e) => Creation(Failure(e), svc, gen.sent)
      case Success(bytes) =>
        var filename := AudioFilename(draw.memoId);
        var url := AudioUrl(baseUrl, filename);
        var cache := match svc.cache
          case None => None
          case Some(c) => Some(c[url := bytes]);
        var memo := Memo(draw.memoId, text, MemoVoice(voiceName, voice.name),
                         AudioMetadata(filename, url, |bytes|, "mp3"), draw.createdAt);
        Creation(Success(memo), svc.(cache := cache), gen.sent)
  }

  /** `getAudio(filename)` as written: it looks up the relative key `/audio/<filename>`. */
  function GetAudioAsWritten(svc: DenoService, filename: string): (r: Option<seq<byte>>)
    ensures r.Some? <==> svc.cache.Some? && "/audio/" + filename in svc.cache.value
    ensures r.Some? ==> r.value == svc.cache.value["/audio/" + filename]
  {
    match svc.cache
    case None => None
    case Some(c) => if "/audio/" + filename in c then Some(c["/audio/" + filename]) else None
  }

  /** `getAudio` with the key `createMemo` stores under: the public base URL, `/audio/`, the name. */
  function GetAudio(svc: DenoService, baseUrl: string, filename: string): (r: Option<seq<byte>>)
    ensures r.Some? <==> svc.cache.Some? && AudioUrl(baseUrl, filename) in svc.cache.value
    ensures r.Some? ==> r.value == svc.cache.value[AudioUrl(baseUrl, filename)]
  {
    match svc.cache
    case None => None
    case Some(c) => if AudioUrl(baseUrl, filename) in c then Some(c[AudioUrl(baseUrl, filename)]) else None
  }

  /** The key mismatch as written: audio cached by a creation under a non-empty base URL is not found
      by `getAudio` (unless some other entry already sat under the relative key). */
  lemma CreatedAudioMissedAsWritten(svc: DenoService, text: string, voiceName: string, baseUrl: string, draw: Draw)
    requires CreateMemo(svc, text, voiceName, baseUrl, draw).memo.Success?
    requires svc.cache.Some? && baseUrl != ""
    requires "/audio/" + AudioFilename(draw.memoId) !in svc.cache.value
    ensures GetAudioAsWritten(CreateMemo(svc, text, voiceName, baseUrl, draw).service,
                              CreateMemo(svc, text, voiceName, baseUrl, draw).memo.value.audio.filename).None?
  {
    var f := AudioFilename(draw.memoId);
    assert |AudioUrl(baseUrl, f)| > |"/audio/" + f|;
  }

  /** With the matching key, the audio of a created memo is served back byte for byte, and its
      length is the length recorded in the memo. */
  lemma CreatedAudioServed(svc: DenoService, text: string, voiceName: string, baseUrl: string, draw: Draw)
    requires CreateMemo(svc, text, voiceName, baseUrl, draw).memo.Success?
    requires svc.cache.Some?
    ensures var c := CreateMemo(svc, text, voiceName, baseUrl, draw);
            && GetAudio(c.service, baseUrl, c.memo.value.audio.filename) == Generated(svc, text, voiceName, draw)
            && |Generated(svc, text, voiceName, draw).value| == c.memo.value.audio.length
  {
  }
}
