/** Shared value shapes: bytes, optional values, and the errors a service call can throw. */
module Base {

  /** One element of a JavaScript `Uint8Array`. */
  type byte = b: int | 0 <= b < 256

  /** A value that may be absent (`undefined` or `null` in the source). */
  datatype Option<+T> = None | Some(value: T)

  /** The upstream text-to-speech services that can report an error. */
  datatype Provider = EdgeTts | ElevenLabs

  /** Why a service operation throws; each alternative is one `throw` site of the source. */
  datatype ServiceError =
    | UnknownVoice(voiceName: string)
    | UnknownTtsMode(mode: string)
    | MissingVoiceMapping(displayName: string)
    | MissingCredentials
    | ProviderError(provider: Provider, status: int)
      /** reading a property of `undefined` (a JavaScript `TypeError`) */
    | UndefinedVoiceName

  /** The outcome of an operation that either returns a value or throws. */
  datatype Result<+T> = Success(value: T) | Failure(error: ServiceError)

  /** JavaScript truthiness of an optional string: both absence and "" are falsy. */
  predicate Truthy(s: Option<string>)
  {
    s.Some? && s.value != ""
  }
}
