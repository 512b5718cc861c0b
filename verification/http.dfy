/** Request bodies and responses shared by the two HTTP front ends. */
module Http {
  import opened Base
  import opened Types

  /** A field of the parsed JSON body as the validation sees it: missing, a string, or another value. */
  datatype JsField = Absent | JsString(s: string) | NonString

  /** The body of `POST /memo`: `Unparseable`, or its `text` and `voice` fields. The two servers
      read `Unparseable` differently. In server.ts it means that `req.json()` throws or yields
      `null`, because a JSON string or number destructures to absent fields. In index.mjs it means
      any body the strict `express.json()` rejects, which is malformed JSON or any value other than
      an object or an array. */
  datatype MemoBody = Unparseable | Fields(text: JsField, voice: JsField)

  /** `!x || typeof x !== 'string'` rejects everything except a non-empty string. */
  predicate IsNonEmptyString(f: JsField)
  {
    f.JsString? && f.s != ""
  }

  /** Why memo creation answered 500: the service threw, or the body could not be read. */
  datatype Fault = Thrown(error: ServiceError) | BadBody

  /** Operations the cache-backed deployment answers as not implemented. */
  datatype Operation = Retrieval | Listing | Deletion

  /** What a response carries. */
  datatype Payload =
    | Health(version: string, ttsMode: Option<string>)
    | VoiceList(voices: seq<VoiceInfo>)
    | MemoPayload(memo: Memo)
    | MemoPage(page: MemosResponse)
    | MemoDeleted(memoId: string)
    | InvalidText
    | InvalidVoiceField
    | InvalidVoice(requestedVoice: string, availableVoices: seq<VoiceInfo>)
    | CreateFailed(fault: Fault)
    | InternalError
    | MemoNotFound(memoId: string)
    | AudioNotFound(filename: string)
    | Unsupported(operation: Operation)
    | RouteNotFound(path: string)
    | Audio(bytes: seq<byte>)
    | NoContent

  datatype Response = Response(status: int, payload: Payload)
}
