/** Audio generation: the three-way dispatch over TTS modes, the simulated audio layout, and the
    checks each upstream provider makes before it is called. Upstream HTTP calls are not
    performed: the request that would be sent is returned, and the response is a parameter. */
module Tts {
  import opened Base
  import opened Types
  import Ssml

  /** What the upstream `fetch` answers: an ok response with its body, or a failure status. */
  datatype FetchResult = Ok(body: seq<byte>) | NotOk(status: int)

  /** How the API key travels: the `xi-api-key` header, or an `Authorization: Bearer` header. */
  datatype Credential = XiApiKey(key: string) | Bearer(token: string)

  /** The single upstream request a generation issues. */
  datatype UpstreamRequest =
    | EdgeRequest(voice: string, ssml: string)
    | ElevenLabsRequest(url: string, credential: Credential, text: string)

  /** Configuration of the cache-backed service: mode, API key (`null` when unset) and base URL. */
  datatype TtsConfig = TtsConfig(mode: TtsMode, apiKey: Option<string>, apiBaseUrl: string)

  /** A generation: the upstream request, if one was issued, and the audio or the error thrown. */
  datatype Synthesis = Synthesis(sent: Option<UpstreamRequest>, audio: Result<seq<byte>>)

  const SimulationHeader: seq<byte> := [0xFF, 0xFB, 0x90, 0x00, 0xFF, 0xFA, 0x1C, 0x80]
  const SilenceCap: nat := 10000

  function Min(a: nat, b: nat): nat
  {
    if a <= b then a else b
  }

  /** `generateSimulationAudio` for a given sample count: the header followed by the first
      10000 bytes of `2 * numSamples` bytes of silence. */
  function SimulationAudio(numSamples: nat): (r: seq<byte>)
    ensures |r| == |SimulationHeader| + Min(2 * numSamples, SilenceCap)
    ensures r[..|SimulationHeader|] == SimulationHeader
    ensures forall i :: |SimulationHeader| <= i < |r| ==> r[i] == 0
  {
    var silent: seq<byte> := seq(2 * numSamples, _ => 0);
    SimulationHeader + silent[..Min(|silent|, SilenceCap)]
  }

  /** The sample count is `floor(44100 * duration)` with `duration >= 1`, so at least 44100:
      the simulated audio therefore always has the same length. */
  lemma SimulationLengthConstant(numSamples: nat)
    requires numSamples >= 44100
    ensures |SimulationAudio(numSamples)| == 10008
  {
  }

  /** The identifier in the ElevenLabs URL: `elevenlabsId`, falling back to `id` when it is falsy. */
  function ElevenLabsVoiceRef(voice: Voice): string
  {
    if Truthy(voice.elevenlabsId) then voice.elevenlabsId.value else voice.id
  }

  function ElevenLabsUrl(apiBaseUrl: string, voiceRef: string): string
  {
    apiBaseUrl + "/text-to-speech/" + voiceRef
  }

  /** Maps the upstream answer of an issued request to the audio or to a provider error. */
  function Receive(provider: Provider, response: FetchResult): (r: Result<seq<byte>>)
    ensures r.Success? <==> response.Ok?
    ensures response.Ok? ==> r.value == response.body
    ensures response.NotOk? ==> r.error == ProviderError(provider, response.status)
  {
    match response
    case Ok(body) => Success(body)
    case NotOk(status) => Failure(ProviderError(provider, status))
  }

  /** `generateEdgeAudio`. */
  function EdgeAudio(text: string, voice: Voice, response: FetchResult): (r: Synthesis)
    ensures !Truthy(voice.edgeVoice) <==> r.sent.None?
    ensures r.sent.None? ==> r.audio == Failure(MissingVoiceMapping(voice.name))
    ensures r.sent.Some? ==> r.sent.value == EdgeRequest(voice.edgeVoice.value, Ssml.CreateSsml(text))
                              && r.audio == Receive(EdgeTts, response)
  {
    if !Truthy(voice.edgeVoice) then Synthesis(None, Failure(MissingVoiceMapping(voice.name)))
    else Synthesis(Some(EdgeRequest(voice.edgeVoice.value, Ssml.CreateSsml(text))), Receive(EdgeTts, response))
  }

  /** `generateElevenLabsAudio` of the cache-backed service. */
  function ElevenLabsAudio(apiKey: Option<string>, apiBaseUrl: string, text: string, voice: Voice,
                           response: FetchResult): (r: Synthesis)
    ensures !Truthy(apiKey) <==> r.sent.None?
    ensures r.sent.None? ==> r.audio == Failure(MissingCredentials)
    ensures r.sent.Some? ==>
      && r.sent.value == ElevenLabsRequest(ElevenLabsUrl(apiBaseUrl, ElevenLabsVoiceRef(voice)), XiApiKey(apiKey.value), text)
      && r.audio == Receive(ElevenLabs, response)
  {
    if !Truthy(apiKey) then Synthesis(None, Failure(MissingCredentials))
    else
      var url := ElevenLabsUrl(apiBaseUrl, ElevenLabsVoiceRef(voice));
      Synthesis(Some(ElevenLabsRequest(url, XiApiKey(apiKey.value), text)), Receive(ElevenLabs, response))
  }

  /** `generateAudio` of the cache-backed service: dispatch on the configured mode. */
  function GenerateAudio(config: TtsConfig, text: string, voice: Voice, numSamples: nat,
                         response: FetchResult): (r: Synthesis)
    ensures config.mode.Unrecognised? ==> r == Synthesis(None, Failure(UnknownTtsMode(config.mode.name)))
    ensures config.mode.Simulation? ==>
      r.sent.None? && r.audio.Success? && |SimulationHeader| <= |r.audio.value| <= |SimulationHeader| + SilenceCap
      && r.audio.value[..|SimulationHeader|] == SimulationHeader
    ensures config.mode.Edge? && !Truthy(voice.edgeVoice) ==>
      r == Synthesis(None, Failure(MissingVoiceMapping(voice.name)))
    ensures config.mode.ElevenLabsMode? && !Truthy(config.apiKey) ==>
      r == Synthesis(None, Failure(MissingCredentials))
    ensures config.mode.Simulation? ==> r.audio == Success(SimulationAudio(numSamples))
    ensures config.mode.Edge? && Truthy(voice.edgeVoice) ==>
      r.sent == Some(EdgeRequest(voice.edgeVoice.value, Ssml.CreateSsml(text)))
    ensures config.mode.ElevenLabsMode? && Truthy(config.apiKey) ==>
      r.sent == Some(ElevenLabsRequest(ElevenLabsUrl(config.apiBaseUrl, ElevenLabsVoiceRef(voice)),
                                       XiApiKey(config.apiKey.value), text))
    ensures r.sent.Some? ==>
      (config.mode.Edge? || config.mode.ElevenLabsMode?)
      && r.audio == Receive(if config.mode.Edge? then EdgeTts else ElevenLabs, response)
    ensures r.audio.Success? ==> config.mode.Simulation? || (r.sent.Some? && response == Ok(r.audio.value))
  {
    match config.mode
    case Simulation => Synthesis(None, Success(SimulationAudio(numSamples)))
    case Edge => EdgeAudio(text, voice, response)
    case ElevenLabsMode => ElevenLabsAudio(config.apiKey, config.apiBaseUrl, text, voice, response)
    case Unrecognised(name) => Synthesis(None, Failure(UnknownTtsMode(name)))
  }

  /** When no upstream request is issued, the outcome does not depend on any upstream answer:
      every error raised before the call is raised whatever the provider would have said. */
  lemma NoRequestNoDependence(config: TtsConfig, text: string, voice: Voice, numSamples: nat,
                              r1: FetchResult, r2: FetchResult)
    requires GenerateAudio(config, text, voice, numSamples, r1).sent.None?
    ensures GenerateAudio(config, text, voice, numSamples, r1) == GenerateAudio(config, text, voice, numSamples, r2)
  {
  }

  /** `generateAudio` of the directory-backed service: ElevenLabs only, addressed by provider id,
      authenticated with a bearer token. */
  function NodeGenerateAudio(apiKey: Option<string>, apiBaseUrl: string, text: string, voiceId: string,
                             response: FetchResult): (r: Synthesis)
    ensures !Truthy(apiKey) <==> r.sent.None?
    ensures r.sent.None? ==> r.audio == Failure(MissingCredentials)
    ensures r.sent.Some? ==>
      && r.sent.value == ElevenLabsRequest(ElevenLabsUrl(apiBaseUrl, voiceId), Bearer(apiKey.value), text)
      && r.audio == Receive(ElevenLabs, response)
  {
    if !Truthy(apiKey) then Synthesis(None, Failure(MissingCredentials))
    else
      var url := ElevenLabsUrl(apiBaseUrl, voiceId);
      Synthesis(Some(ElevenLabsRequest(url, Bearer(apiKey.value), text)), Receive(ElevenLabs, response))
  }
}
