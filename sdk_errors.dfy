/** The SDK's exception hierarchy. Every SDK exception extends
    `WeatherSdkException`; the subclasses carry no behaviour of their own, so
    each becomes a tag. Anything thrown that is not an SDK exception (an I/O
    error, a decoding error from a library) is a `Foreign` failure. */
module SdkErrors {

  /** `WeatherSdk` is the base class itself, thrown for generic errors. */
  datatype ErrorKind =
    | WeatherSdk
    | InvalidCity
    | CityNotFound
    | InvalidApiKey
    | ApiKeyBlocked
    | UnexpectedApi
    | Network
    | JsonParsing
    | SdkShutdown

  /** A thrown exception: an SDK exception with its kind and message, or any
      other exception with its message. */
  datatype Failure = SdkError(kind: ErrorKind, message: string) | Foreign(message: string)
  {
    /** The exception is an SDK exception of exactly this kind. */
    predicate Is(k: ErrorKind) {
      SdkError? && kind == k
    }
  }
}
