/** The route handlers of the directory-backed deployment (index.mjs). Express matching is not
    modelled: a request arrives already routed, with its path parameter and query values. */
module NodeServer {
  import opened Base
  import opened Types
  import opened Voices
  import opened MemoStore
  import opened Http
  import opened NodeMemo

  /** A routed request; absent query values are `None`. */
  datatype Route =
    | GetHealth
    | GetVoices
    | GetMemoById(memoId: string)
    | PostMemo(body: MemoBody)
    | ListAll(limit: Option<nat>, offset: Option<nat>)
    | DeleteMemoById(memoId: string)

  datatype Handled = Handled(response: Response, service: NodeService)

  function GetOr(o: Option<nat>, default: nat): nat
  {
    match o
    case None => default
    case Some(v) => v
  }

  /** `POST /memo`: an unreadable body goes to the error middleware; then `text`, `voice`, the
      registry check, and creation. */
  function Create(svc: NodeService, body: MemoBody, draw: NodeDraw): (r: Handled)
    ensures body.Unparseable? ==> r == Handled(Response(500, InternalError), svc)
    ensures body.Fields? && !IsNonEmptyString(body.text) ==> r == Handled(Response(400, InvalidText), svc)
    ensures body.Fields? && IsNonEmptyString(body.text) && !IsNonEmptyString(body.voice) ==>
      r == Handled(Response(400, InvalidVoiceField), svc)
    ensures body.Fields? && IsNonEmptyString(body.text) && IsNonEmptyString(body.voice)
            && !IsValidVoice(svc.voices, body.voice.s) ==>
      r == Handled(Response(400, InvalidVoice(body.voice.s, AvailableVoices(svc.voices))), svc)
    ensures r.response.status == 201 <==>
      body.Fields? && IsNonEmptyString(body.text) && IsNonEmptyString(body.voice)
      && NodeMemo.CreateMemo(svc, body.text.s, body.voice.s, draw).memo.Success?
    ensures r.response.status == 201 ==>
      r == Handled(Response(201, MemoPayload(NodeMemo.CreateMemo(svc, body.text.s, body.voice.s, draw).memo.value)),
                   NodeMemo.CreateMemo(svc, body.text.s, body.voice.s, draw).service)
    ensures r.response.status == 500 && body.Fields? ==>
      r.response.payload == CreateFailed(Thrown(NodeMemo.CreateMemo(svc, body.text.s, body.voice.s, draw).memo.error))
    ensures body.Fields? && IsNonEmptyString(body.text) && IsNonEmptyString(body.voice)
            && IsValidVoice(svc.voices, body.voice.s)
            && NodeMemo.CreateMemo(svc, body.text.s, body.voice.s, draw).memo.Failure? ==>
      r == Handled(Response(500, CreateFailed(Thrown(NodeMemo.CreateMemo(svc, body.text.s, body.voice.s, draw).memo.error))),
                   NodeMemo.CreateMemo(svc, body.text.s, body.voice.s, draw).service)
    ensures r.response.status in {201, 400, 500}
    ensures r.response.status != 201 ==> r.service == svc
  {
    match body
    case Unparseable => Handled(Response(500, InternalError), svc)
    case Fields(text, voice) =>
      if !IsNonEmptyString(text) then Handled(Response(400, InvalidText), svc)
      else if !IsNonEmptyString(voice) then Handled(Response(400, InvalidVoiceField), svc)
      else if !IsValidVoice(svc.voices, voice.s) then
        Handled(Response(400, InvalidVoice(voice.s, AvailableVoices(svc.voices))), svc)
      else
        var c := NodeMemo.CreateMemo(svc, text.s, voice.s, draw);
        match c.memo
        case Success(memo) => Handled(Response(201, MemoPayload(memo)), c.service)
        case Failure(e) => Handled(Response(500, CreateFailed(Thrown(e))), c.service)
  }

  /** One request against the service. */
  function Handle(svc: NodeService, route: Route, draw: NodeDraw): (r: Handled)
    ensures !route.PostMemo? && !route.DeleteMemoById? ==> r.service == svc
    ensures route.GetHealth? ==> r.response == Response(200, Health("1.0.0", None))
    ensures route.GetVoices? ==> r.response == Response(200, VoiceList(AvailableVoices(svc.voices)))
    ensures route.GetMemoById? ==>
      (r.response.status == 404 <==> GetMemo(svc.store, route.memoId).None?)
      && (r.response.status == 404 ==> r.response.payload == MemoNotFound(route.memoId))
      && (r.response.status != 404 ==> r.response == Response(200, MemoPayload(GetMemo(svc.store, route.memoId).value)))
    ensures route.DeleteMemoById? ==>
      (r.response.status == 404 <==> !HasKey(svc.store, route.memoId))
      && (r.response.status == 404 ==> r == Handled(Response(404, MemoNotFound(route.memoId)), svc))
      && (r.response.status != 404 ==> r.response == Response(200, MemoDeleted(route.memoId))
                                       && r.service.store == DeleteMemo(svc.store, route.memoId).store
                                       && r.service.files == svc.files - {GetMemo(svc.store, route.memoId).value.audio.filename}
                                       && r.service.config == svc.config && r.service.voices == svc.voices)
    ensures route.ListAll? ==>
      r.response == Response(200, MemoPage(ListMemos(svc.store, GetOr(route.limit, DefaultLimit),
                                                     GetOr(route.offset, DefaultOffset))))
    ensures route.PostMemo? ==> r == Create(svc, route.body, draw)
  {
    match route
    case GetHealth => Handled(Response(200, Health("1.0.0", None)), svc)
    case GetVoices => Handled(Response(200, VoiceList(AvailableVoices(svc.voices))), svc)
    case GetMemoById(id) =>
      (match GetMemo(svc.store, id)
       case None => Handled(Response(404, MemoNotFound(id)), svc)
       case Some(memo) => Handled(Response(200, MemoPayload(memo)), svc))
    case PostMemo(body) => Create(svc, body, draw)
    case ListAll(limit, offset) =>
      Handled(Response(200, MemoPage(ListMemos(svc.store, GetOr(limit, DefaultLimit), GetOr(offset, DefaultOffset)))), svc)
    case DeleteMemoById(id) =>
      var (deleted, after) := DeleteMemoFile(svc, id);
      if !deleted then Handled(Response(404, MemoNotFound(id)), svc)
      else Handled(Response(200, MemoDeleted(id)), after)
  }

  /** A memo answered 201 by `POST /memo` is then answered 200 by `GET /memo/<id>`. */
  lemma CreateThenFetch(svc: NodeService, body: MemoBody, draw: NodeDraw, later: NodeDraw)
    requires Valid(svc.store)
    requires Handle(svc, PostMemo(body), draw).response.status == 201
    ensures var h := Handle(svc, PostMemo(body), draw);
            var m := h.response.payload.memo;
            Handle(h.service, GetMemoById(m.id), later).response == Response(200, MemoPayload(m))
  {
    CreateThenGet(svc, body.text.s, body.voice.s, draw);
  }

  /** Deleting an existing memo answers 200; fetching or deleting it again answers 404. */
  lemma DeleteThenMissing(svc: NodeService, id: string, d1: NodeDraw, d2: NodeDraw)
    requires Valid(svc.store) && HasKey(svc.store, id)
    ensures var h := Handle(svc, DeleteMemoById(id), d1);
            && h.response == Response(200, MemoDeleted(id))
            && Handle(h.service, GetMemoById(id), d2).response == Response(404, MemoNotFound(id))
            && Handle(h.service, DeleteMemoById(id), d2).response == Response(404, MemoNotFound(id))
  {
    DeleteFacts(svc.store, id);
  }

  /** Without query values, listing returns the twenty newest memos. */
  lemma ListDefaults(svc: NodeService, draw: NodeDraw)
    ensures var page := Handle(svc, ListAll(None, None), draw).response.payload.page;
            && page.pagination.limit == 20 && page.pagination.offset == 0
            && |page.memos| == (if |svc.store| <= 20 then |svc.store| else 20)
            && page.pagination.hasMore == (|svc.store| > 20)
  {
  }
}
