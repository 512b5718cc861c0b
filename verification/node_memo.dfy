/** Memo creation and deletion of the directory-backed service (lib/memo-service.mjs): audio files in
    a storage directory, memo metadata in an in-memory ordered map. */
module NodeMemo {
  import opened Base
  import opened Text
  import opened Types
  import opened Voices
  import opened Tts
  import opened MemoStore

  /** API key (from the environment, possibly unset), API base URL and public base URL. */
  datatype NodeConfig = NodeConfig(apiKey: Option<string>, apiBaseUrl: string, baseUrl: string)

  /** The service: configuration, voice table, memo index, and the storage directory (file name to bytes). */
  datatype NodeService = NodeService(config: NodeConfig, voices: VoiceTable, store: Store, files: map<string, seq<byte>>)

  /** Values a creation takes from outside the model: the two random ids it draws (one for the file
      name, one for the memo), the timestamp and the upstream answer. */
  datatype NodeDraw = NodeDraw(fileId: string, memoId: string, createdAt: string, response: FetchResult)

  datatype NodeCreation = NodeCreation(memo: Result<Memo>, service: NodeService, sent: Option<UpstreamRequest>)

  /** The generation `createMemo` performs once the voice resolves. */
  function Generation(svc: NodeService, text: string, voiceId: string, draw: NodeDraw): Synthesis
  {
    NodeGenerateAudio(svc.config.apiKey, svc.config.apiBaseUrl, text, voiceId, draw.response)
  }

  /** `createMemo(text, voiceName)` as written: after the file is written, the display name is read
      from `voices[voiceId]`, i.e. the key-indexed table is indexed with the provider id. */
  function CreateMemoAsWritten(svc: NodeService, text: string, voiceName: string, draw: NodeDraw): (r: NodeCreation)
    ensures !Truthy(GetVoiceId(svc.voices, voiceName)) ==>
      r == NodeCreation(Failure(UnknownVoice(voiceName)), svc, None)
    ensures r.service.store != svc.store ==> r.memo.Success?
  {
    var voiceId := GetVoiceId(svc.voices, voiceName);
    if !Truthy(voiceId) then NodeCreation(Failure(UnknownVoice(voiceName)), svc, None)
    else
      var gen := Generation(svc, text, voiceId.value, draw);
      match gen.audio
      case Failure(e) => NodeCreation(Failure(e), svc, gen.sent)
      case Success(bytes) =>
        var filename := AudioFilename(draw.fileId);
        var written := svc.(files := svc.files[filename := bytes]);
        match Lookup(svc.voices, voiceId.value)
        case None => NodeCreation(Failure(UndefinedVoiceName), written, gen.sent)
        case Some(entry) =>
          var memo := Memo(draw.memoId, text, MemoVoice(voiceName, entry.name),
                           AudioMetadata(filename, AudioUrl(svc.config.baseUrl, filename), |bytes|, "mp3"),
                           draw.createdAt);
          NodeCreation(Success(memo), written.(store := Put(svc.store, memo.id, memo)), gen.sent)
  }

  /** No provider id of the table is also one of its keys. */
  predicate IdsAreNotKeys(table: VoiceTable)
  {
    forall i, j :: 0 <= i < |table| && 0 <= j < |table| ==> table[i].voice.id != table[j].key
  }

  lemma NodeVoicesIdsAreNotKeys()
    ensures IdsAreNotKeys(NodeVoices())
  {
    NodeVoicesFacts();
  }

  /** Over a table whose provider ids are never keys, every creation that gets past generation
      throws, after its audio file was written, and records no memo. */
  lemma NameLookupFails(svc: NodeService, text: string, voiceName: string, draw: NodeDraw)
    requires IdsAreNotKeys(svc.voices)
    requires Truthy(GetVoiceId(svc.voices, voiceName)) && Truthy(svc.config.apiKey) && draw.response.Ok?
    ensures var r := CreateMemoAsWritten(svc, text, voiceName, draw);
            && r.memo == Failure(UndefinedVoiceName)
            && r.service.store == svc.store
            && r.service.files == svc.files[AudioFilename(draw.fileId) := draw.response.body]
  {
    var id := GetVoiceId(svc.voices, voiceName).value;
    var i :| 0 <= i < |svc.voices| && svc.voices[i].key == Lower(voiceName) && svc.voices[i].voice.id == id;
    assert Lookup(svc.voices, id).None?;
  }

  /** With the shipped registry, creation as written always fails once the audio is generated. */
  lemma NameLookupBreaksAsWritten(svc: NodeService, text: string, voiceName: string, draw: NodeDraw)
    requires svc.voices == NodeVoices()
    requires Truthy(GetVoiceId(svc.voices, voiceName)) && Truthy(svc.config.apiKey) && draw.response.Ok?
    ensures var r := CreateMemoAsWritten(svc, text, voiceName, draw);
            && r.memo == Failure(UndefinedVoiceName)
            && r.service.store == svc.store
            && r.service.files == svc.files[AudioFilename(draw.fileId) := draw.response.body]
  {
    NodeVoicesIdsAreNotKeys();
    NameLookupFails(svc, text, voiceName, draw);
  }

  /** `createMemo` with the display name taken from the voice the name resolved to. */
  function CreateMemo(svc: NodeService, text: string, voiceName: string, draw: NodeDraw): (r: NodeCreation)
    ensures !Truthy(GetVoiceId(svc.voices, voiceName)) ==>
      r == NodeCreation(Failure(UnknownVoice(voiceName)), svc, None)
    ensures Truthy(GetVoiceId(svc.voices, voiceName)) ==>
      var g := Generation(svc, text, GetVoiceId(svc.voices, voiceName).value, draw);
      && r.sent == g.sent
      && (g.audio.Failure? ==> r.memo == Failure(g.audio.error))
    ensures r.memo.Failure? ==> r.service == svc
    ensures r.service.config == svc.config && r.service.voices == svc.voices
    ensures r.memo.Success? <==>
      Truthy(GetVoiceId(svc.voices, voiceName)) && Truthy(svc.config.apiKey) && draw.response.Ok?
    ensures r.memo.Success? ==>
      var m := r.memo.value;
      && m.id == draw.memoId && m.text == text && m.createdAt == draw.createdAt
      && m.voice == MemoVoice(voiceName, FindVoice(svc.voices, voiceName).value.name)
      && m.audio == AudioMetadata(AudioFilename(draw.fileId), AudioUrl(svc.config.baseUrl, AudioFilename(draw.fileId)),
                                  |draw.response.body|, "mp3")
      && r.service.files == svc.files[m.audio.filename := draw.response.body]
      && r.service.store == Put(svc.store, m.id, m)
  {
    var voiceId := GetVoiceId(svc.voices, voiceName);
    if !Truthy(voiceId) then NodeCreation(Failure(UnknownVoice(voiceName)), svc, None)
    else
      var gen := Generation(svc, text, voiceId.value, draw);
      match gen.audio
      case Failure(e) => NodeCreation(Failure(e), svc, gen.sent)
      case Success(bytes) =>
        var filename := AudioFilename(draw.fileId);
        var memo := Memo(draw.memoId, text, MemoVoice(voiceName, FindVoice(svc.voices, voiceName).value.name),
                         AudioMetadata(filename, AudioUrl(svc.config.baseUrl, filename), |bytes|, "mp3"),
                         draw.createdAt);
        NodeCreation(Success(memo), svc.(files := svc.files[filename := bytes], store := Put(svc.store, memo.id, memo)),
                     gen.sent)
  }

  /** A created memo can be fetched back by its id; the index stays valid and no other memo changes. */
  lemma CreateThenGet(svc: NodeService, text: string, voiceName: string, draw: NodeDraw)
    requires Valid(svc.store)
    requires CreateMemo(svc, text, voiceName, draw).memo.Success?
    ensures var r := CreateMemo(svc, text, voiceName, draw);
            && Valid(r.service.store)
            && GetMemo(r.service.store, r.memo.value.id) == Some(r.memo.value)
            && forall k :: k != r.memo.value.id ==> GetMemo(r.service.store, k) == GetMemo(svc.store, k)
  {
    PutMemo(svc.store, CreateMemo(svc, text, voiceName, draw).memo.value);
  }

  /** The file name and the memo id come from two independent draws: whenever they differ, the file
      is not named after the memo. */
  lemma TwoIds(svc: NodeService, text: string, voiceName: string, draw: NodeDraw)
    requires CreateMemo(svc, text, voiceName, draw).memo.Success?
    requires draw.fileId != draw.memoId
    ensures var m := CreateMemo(svc, text, voiceName, draw).memo.value;
            m.audio.filename != AudioFilename(m.id)
  {
    if AudioFilename(draw.fileId) == AudioFilename(draw.memoId) {
      AudioFilenameInjective(draw.fileId, draw.memoId);
    }
  }

  /** `deleteMemo`: drop the index entry and unlink the memo's audio file. */
  function DeleteMemoFile(svc: NodeService, id: string): (r: (bool, NodeService))
    ensures r.0 <==> GetMemo(svc.store, id).Some?
    ensures !r.0 ==> r.1 == svc
    ensures r.0 ==> r.1.store == DeleteMemo(svc.store, id).store
                    && r.1.files == svc.files - {GetMemo(svc.store, id).value.audio.filename}
                    && r.1.config == svc.config && r.1.voices == svc.voices
  {
    var d := DeleteMemo(svc.store, id);
    match d.removed
    case None => (false, svc)
    case Some(memo) => (true, svc.(store := d.store, files := svc.files - {memo.audio.filename}))
  }
}
