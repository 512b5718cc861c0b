/** The request handler of the cache-backed deployment (server.ts) as a decision over method, path,
    body and the service's outcome. Checks run in source order; the first that matches answers. */
module DenoServer {
  import opened Base
  import opened Types
  import opened Voices
  import opened Http
  import opened DenoMemo

  datatype Request = Request(httpMethod: string, path: string, body: MemoBody)

  datatype Handled = Handled(response: Response, service: DenoService)

  const AudioPrefix: string := "/audio/"
  const MemoPrefix: string := "/memo/"

  /** The `ttsMode` string reported by `/health`. */
  function ModeName(mode: TtsMode): string
  {
    match mode
    case Simulation => "simulation"
    case Edge => "edge"
    case ElevenLabsMode => "elevenlabs"
    case Unrecognised(name) => name
  }

  /** The name `/health` reports is the configured string, or `simulation` when none is set. */
  lemma ModeNameOfEnv(env: Option<string>)
    ensures ModeName(ModeFromEnv(env)) == (if Truthy(env) then env.value else "simulation")
  {
  }

  /** The `POST /memo` branch: body, then `text`, then `voice`, then the registry, then creation. */
  function PostMemo(svc: DenoService, baseUrl: string, body: MemoBody, draw: Draw): (r: Handled)
    ensures body.Unparseable? ==> r == Handled(Response(500, CreateFailed(BadBody)), svc)
    ensures body.Fields? && !IsNonEmptyString(body.text) ==> r == Handled(Response(400, InvalidText), svc)
    ensures body.Fields? && IsNonEmptyString(body.text) && !IsNonEmptyString(body.voice) ==>
      r == Handled(Response(400, InvalidVoiceField), svc)
    ensures body.Fields? && IsNonEmptyString(body.text) && IsNonEmptyString(body.voice)
            && !IsValidVoice(svc.voices, body.voice.s) ==>
      r == Handled(Response(400, InvalidVoice(body.voice.s, AvailableVoices(svc.voices))), svc)
    ensures r.response.status == 201 <==>
      body.Fields? && IsNonEmptyString(body.text) && IsNonEmptyString(body.voice)
      && CreateMemo(svc, body.text.s, body.voice.s, baseUrl, draw).memo.Success?
    ensures r.response.status == 201 ==>
      r.response.payload == MemoPayload(CreateMemo(svc, body.text.s, body.voice.s, baseUrl, draw).memo.value)
    ensures body.Fields? && IsNonEmptyString(body.text) && IsNonEmptyString(body.voice)
            && IsValidVoice(svc.voices, body.voice.s)
            && CreateMemo(svc, body.text.s, body.voice.s, baseUrl, draw).memo.Failure? ==>
      r == Handled(Response(500, CreateFailed(Thrown(CreateMemo(svc, body.text.s, body.voice.s, baseUrl, draw).memo.error))), svc)
    ensures r.response.status == 201 ==> r.service == CreateMemo(svc, body.text.s, body.voice.s, baseUrl, draw).service
    ensures r.response.status in {201, 400, 500}
    ensures r.response.status != 201 ==> r.service == svc
  {
    match body
    case Unparseable => Handled(Response(500, CreateFailed(BadBody)), svc)
    case Fields(text, voice) =>
      if !IsNonEmptyString(text) then Handled(Response(400, InvalidText), svc)
      else if !IsNonEmptyString(voice) then Handled(Response(400, InvalidVoiceField), svc)
      else if !IsValidVoice(svc.voices, voice.s) then
        Handled(Response(400, InvalidVoice(voice.s, AvailableVoices(svc.voices))), svc)
      else
        var c := CreateMemo(svc, text.s, voice.s, baseUrl, draw);
        match c.memo
        case Success(memo) => Handled(Response(201, MemoPayload(memo)), c.service)
        case Failure(e) => Handled(Response(500, CreateFailed(Thrown(e))), c.service)
  }

  /** A path under `/memo/` is none of the exact routes and not under `/audio/`. */
  lemma MemoPathFacts(path: string)
    ensures MemoPrefix <= path ==>
      path != "/health" && path != "/voices" && path != "/memos" && path != "/memo" && !(AudioPrefix <= path)
  {
    if MemoPrefix <= path {
      assert path[1] == 'm' && path[5] == '/' && |path| >= 6;
    }
  }

  /** The handler passed to `serve`. */
  function Handle(svc: DenoService, baseUrl: string, req: Request, draw: Draw): (r: Handled)
    ensures req.path == "/health" ==>
      r == Handled(Response(200, Health("1.1.0", Some(ModeName(svc.config.mode)))), svc)
    ensures req.path == "/voices" ==> r == Handled(Response(200, VoiceList(AvailableVoices(svc.voices))), svc)
    ensures AudioPrefix <= req.path ==>
              && r.service == svc
              && (match GetAudio(svc, baseUrl, req.path[|AudioPrefix|..])
                  case Some(bytes) => r.response == Response(200, Audio(bytes))
                  case None => r.response == Response(404, AudioNotFound(req.path[|AudioPrefix|..])))
    ensures req.path == "/memo" && req.httpMethod == "POST" ==> r == PostMemo(svc, baseUrl, req.body, draw)
    ensures req.httpMethod == "GET" && MemoPrefix <= req.path && !(AudioPrefix <= req.path) ==>
      r == Handled(Response(501, Unsupported(Retrieval)), svc)
    ensures req.httpMethod == "GET" && req.path == "/memos" ==> r == Handled(Response(501, Unsupported(Listing)), svc)
    ensures req.httpMethod == "DELETE" && MemoPrefix <= req.path ==> r == Handled(Response(501, Unsupported(Deletion)), svc)
    ensures r.response.status == 204 <==>
      req.httpMethod == "OPTIONS" && req.path != "/health" && req.path != "/voices" && !(AudioPrefix <= req.path)
    ensures r.response.status == 204 ==> r == Handled(Response(204, NoContent), svc)
    ensures r.response.payload.RouteNotFound? ==> r.response == Response(404, RouteNotFound(req.path))
    ensures && req.httpMethod != "OPTIONS" && req.path != "/health" && req.path != "/voices"
            && !(AudioPrefix <= req.path)
            && !(req.path == "/memo" && req.httpMethod == "POST")
            && !(MemoPrefix <= req.path && (req.httpMethod == "GET" || req.httpMethod == "DELETE"))
            && !(req.path == "/memos" && req.httpMethod == "GET") ==>
      r == Handled(Response(404, RouteNotFound(req.path)), svc)
    ensures r.service != svc ==> req.path == "/memo" && req.httpMethod == "POST" && r.response.status in {201, 500}
  {
    MemoPathFacts(req.path);
    if req.path == "/health" then
      Handled(Response(200, Health("1.1.0", Some(ModeName(svc.config.mode)))), svc)
    else if req.path == "/voices" then
      Handled(Response(200, VoiceList(AvailableVoices(svc.voices))), svc)
    else if AudioPrefix <= req.path then
      var filename := req.path[|AudioPrefix|..];
      match GetAudio(svc, baseUrl, filename)
      case Some(bytes) => Handled(Response(200, Audio(bytes)), svc)
      case None => Handled(Response(404, AudioNotFound(filename)), svc)
    else if req.path == "/memo" && req.httpMethod == "POST" then
      PostMemo(svc, baseUrl, req.body, draw)
    else if MemoPrefix <= req.path && req.httpMethod == "GET" then
      Handled(Response(501, Unsupported(Retrieval)), svc)
    else if req.path == "/memos" && req.httpMethod == "GET" then
      Handled(Response(501, Unsupported(Listing)), svc)
    else if MemoPrefix <= req.path && req.httpMethod == "DELETE" then
      Handled(Response(501, Unsupported(Deletion)), svc)
    else if req.httpMethod == "OPTIONS" then
      Handled(Response(204, NoContent), svc)
    else
      Handled(Response(404, RouteNotFound(req.path)), svc)
  }

  /** Memos cannot be read, listed or deleted, whatever was created before: retrieval, listing and
      deletion answer 501 for every service state, and after any creation. */
  lemma PersistenceUnsupported(svc: DenoService, baseUrl: string, text: string, voice: string,
                               id: string, createDraw: Draw, draw: Draw)
    ensures var after := Handle(svc, baseUrl, Request("POST", "/memo", Fields(JsString(text), JsString(voice))), createDraw).service;
            && Handle(after, baseUrl, Request("GET", MemoPrefix + id, Unparseable), draw).response.status == 501
            && Handle(after, baseUrl, Request("GET", "/memos", Unparseable), draw).response.status == 501
            && Handle(after, baseUrl, Request("DELETE", MemoPrefix + id, Unparseable), draw).response.status == 501
  {
    var after := Handle(svc, baseUrl, Request("POST", "/memo", Fields(JsString(text), JsString(voice))), createDraw).service;
    assert MemoPrefix <= MemoPrefix + id;
    MemoPathFacts(MemoPrefix + id);
  }

  /** A memo created through `POST /memo` is served at its audio path, with the bytes generated. */
  lemma CreatedAudioReachable(svc: DenoService, baseUrl: string, text: string, voice: string, draw: Draw, later: Draw)
    requires svc.cache.Some?
    requires Handle(svc, baseUrl, Request("POST", "/memo", Fields(JsString(text), JsString(voice))), draw).response.status == 201
    ensures var h := Handle(svc, baseUrl, Request("POST", "/memo", Fields(JsString(text), JsString(voice))), draw);
            var m := h.response.payload.memo;
            Handle(h.service, baseUrl, Request("GET", AudioPrefix + m.audio.filename, Unparseable), later).response
              == Response(200, Audio(DenoMemo.Generated(svc, text, voice, draw).value))
  {
    var h := Handle(svc, baseUrl, Request("POST", "/memo", Fields(JsString(text), JsString(voice))), draw);
    var m := h.response.payload.memo;
    var p := AudioPrefix + m.audio.filename;
    assert p[|AudioPrefix|..] == m.audio.filename;
    assert p != "/health" && p != "/voices" by { assert p[..7] == "/audio/"; }
    CreatedAudioServed(svc, text, voice, baseUrl, draw);
  }
}
