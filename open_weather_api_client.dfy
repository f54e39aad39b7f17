/** The non-I/O logic of `OpenWeatherApiClient`: argument validation, the
    routing of HTTP status codes to exception kinds, and the rule that every
    failure leaving `fetchWeather` is an SDK exception.

    The HTTP exchange itself is not modelled: what the transport produced
    for a request is a `Reply` value, and the JSON handling around it (the
    decoding of the response body, `convertToRequiredFormat`, and
    `extractErrorMessage` on an error body) appears only through its
    outcome. */
module ApiClient {
  import opened Outcomes
  import opened SdkErrors
  import opened JavaStrings

  /** The base URL of the default constructor. */
  const BASE_URL: string := "https://api.openweathermap.org/data/2.5"

  /** The message of the exception for a null or blank key. */
  const INVALID_KEY_MESSAGE: string := "API key cannot be null or empty"

  /** The message of the exception for a null or blank city name. */
  const INVALID_CITY_MESSAGE: string := "City name cannot be null or empty"

  /** The message of the exception `convertToRequiredFormat` raises. */
  const PROCESSING_ERROR_MESSAGE: string := "Error while processing weather data"

  /** A constructed client: its key and the base URL requests go to;
      `None` is a null base URL, which the constructor accepts unchecked. */
  datatype Client = Client(apiKey: string, baseUrl: Option<string>)

  /** What became of a response body that was not routed as an error. */
  datatype Payload =
    | NoBody                      // the body was empty, so `block()` yields null
    | Undecodable(message: string) // the body could not be read as a weather response
    | Unconvertible               // `convertToRequiredFormat` threw
    | Converted(json: string)     // `convertToRequiredFormat` returned this JSON

  /** What the transport produced for one request. */
  datatype Reply =
    | Response(status: int, errorBody: string, errorMessage: string, payload: Payload)
      // an HTTP response; `errorMessage` is what `extractErrorMessage` makes of `errorBody`
    | PipelineFailure(cause: Failure)
      // an exception raised inside the reactive pipeline, e.g. a refused connection
    | CallFailure(cause: Failure)
      // an exception thrown out of `block()` itself, past the pipeline's error mapping

  /** The key check of both constructors. */
  function ValidateApiKey(apiKey: Option<string>): (r: Outcome<Failure>)
    ensures r.Pass? <==> !IsNullOrBlank(apiKey)
    ensures r.Fail? ==> r.error.Is(InvalidApiKey)
  {
    if IsNullOrBlank(apiKey) then Fail(SdkError(InvalidApiKey, INVALID_KEY_MESSAGE)) else Pass
  }

  /** The one-argument constructor: the default base URL. */
  function NewClient(apiKey: Option<string>): (r: Result<Client, Failure>)
    ensures r.Success? <==> !IsNullOrBlank(apiKey)
    ensures r.Success? ==> r.value.apiKey == apiKey.value && r.value.baseUrl == Some(BASE_URL)
    ensures r.Failure? ==> r.error.Is(InvalidApiKey)
  {
    NewClientWithBaseUrl(apiKey, Some(BASE_URL))
  }

  /** The two-argument constructor: the base URL given, null or not; only
      the key decides whether construction succeeds. */
  function NewClientWithBaseUrl(apiKey: Option<string>, baseUrl: Option<string>): (r: Result<Client, Failure>)
    ensures r.Success? <==> !IsNullOrBlank(apiKey)
    ensures r.Success? ==> r.value.apiKey == apiKey.value && r.value.baseUrl == baseUrl
    ensures r.Failure? ==> r.error.Is(InvalidApiKey)
  {
    match ValidateApiKey(apiKey)
    case Fail(e) => Failure(e)
    case Pass => Success(Client(apiKey.value, baseUrl))
  }

  predicate Is4xx(status: int) {
    400 <= status < 500
  }

  predicate Is5xx(status: int) {
    500 <= status < 600
  }

  /** `handleErrorResponse`: the exception a client-error status raises. */
  function HandleErrorResponse(status: int, errorMessage: string): (e: Failure)
    ensures e.SdkError?
    ensures e.kind == InvalidApiKey <==> status == 401
    ensures e.kind == ApiKeyBlocked <==> status == 403
    ensures e.kind == CityNotFound <==> status == 404
    ensures e.kind == WeatherSdk <==> status !in {401, 403, 404}
    ensures |errorMessage| <= |e.message| && e.message[|e.message| - |errorMessage|..] == errorMessage
  {
    var prefix :=
      if status == 401 then "Invalid API Key: "
      else if status == 403 then "API Key blocked: "
      else if status == 404 then "City not found: "
      else "API error: ";
    var kind :=
      if status == 401 then InvalidApiKey
      else if status == 403 then ApiKeyBlocked
      else if status == 404 then CityNotFound
      else WeatherSdk;
    assert (prefix + errorMessage)[|prefix|..] == errorMessage;
    SdkError(kind, prefix + errorMessage)
  }

  /** The outcome of the reactive pipeline up to the error mapping: the
      status routing, then the decoding and conversion of the body. `None`
      is the null an empty body leaves. */
  function Exchange(status: int, errorBody: string, errorMessage: string, payload: Payload): (r: Result<Option<string>, Failure>)
  {
    if Is4xx(status) then
      Failure(HandleErrorResponse(status, errorMessage))
    else if Is5xx(status) then
      Failure(SdkError(UnexpectedApi, "OpenWeather API server error: " + errorBody))
    else
      match payload
      case NoBody => Success(None)
      case Undecodable(message) => Failure(Foreign(message))
      case Unconvertible => Failure(SdkError(WeatherSdk, PROCESSING_ERROR_MESSAGE))
      case Converted(json) => Success(Some(json))
  }

  /** `onErrorMap`: an exception that is not an SDK exception becomes a
      network error; anything else passes as it is. */
  function MapNonSdk(r: Result<Option<string>, Failure>): (m: Result<Option<string>, Failure>)
    ensures r.Success? ==> m == r
    ensures r.Failure? && r.error.SdkError? ==> m == r
    ensures r.Failure? && r.error.Foreign? ==> m == Failure(SdkError(Network, "Network error: " + r.error.message))
  {
    if r.Failure? && r.error.Foreign? then
      Failure(SdkError(Network, "Network error: " + r.error.message))
    else
      r
  }

  /** `fetchWeather` for `cityName` when the transport produces `reply`. */
  function FetchWeather(client: Client, cityName: Option<string>, reply: Reply): (r: Result<Option<string>, Failure>)
    ensures IsNullOrBlank(cityName) ==> r == Failure(SdkError(InvalidCity, INVALID_CITY_MESSAGE))
    ensures r.Failure? ==> r.error.SdkError?
  {
    if IsNullOrBlank(cityName) then
      Failure(SdkError(InvalidCity, INVALID_CITY_MESSAGE))
    else
      match reply
      case Response(status, errorBody, errorMessage, payload) =>
        MapNonSdk(Exchange(status, errorBody, errorMessage, payload))
      case PipelineFailure(cause) =>
        MapNonSdk(Failure(cause))
      case CallFailure(cause) =>
        if cause.SdkError? then Failure(cause)
        else Failure(SdkError(Network, "Unexpected network error: " + cause.message))
  }

  // ---------------------------------------------------------------------
  // Properties of `fetchWeather`

  /** A null or blank city is refused the same way whatever the network
      would have answered: no request decides the outcome. */
  lemma BlankCityNeedsNoRequest(client: Client, cityName: Option<string>, reply1: Reply, reply2: Reply)
    requires IsNullOrBlank(cityName)
    ensures FetchWeather(client, cityName, reply1) == FetchWeather(client, cityName, reply2)
    ensures FetchWeather(client, cityName, reply1).error.Is(InvalidCity)
  {
  }

  /** The status routing of a response to a valid city: 401, 403 and 404
      name the key, the block and the city; any other 4xx is a generic SDK
      exception; every 5xx is an unexpected API error. */
  lemma StatusRouting(client: Client, city: string, status: int, errorBody: string, errorMessage: string, payload: Payload)
    requires !IsBlank(city)
    ensures var r := FetchWeather(client, Some(city), Response(status, errorBody, errorMessage, payload));
      && (Is4xx(status) || Is5xx(status) ==> r.Failure? && !r.error.Is(Network))
      && (status == 401 ==> r.Failure? && r.error.Is(InvalidApiKey))
      && (status == 403 ==> r.Failure? && r.error.Is(ApiKeyBlocked))
      && (status == 404 ==> r.Failure? && r.error.Is(CityNotFound))
      && (Is4xx(status) && status !in {401, 403, 404} ==> r.Failure? && r.error.Is(WeatherSdk))
      && (Is5xx(status) ==> r.Failure? && r.error.Is(UnexpectedApi))
  {
  }

  /** A response outside 4xx and 5xx succeeds exactly when its body is
      empty or converts, and then yields the converted JSON (null for the
      empty body). */
  lemma SuccessfulResponse(client: Client, city: string, status: int, errorBody: string, errorMessage: string, payload: Payload)
    requires !IsBlank(city) && !Is4xx(status) && !Is5xx(status)
    ensures var r := FetchWeather(client, Some(city), Response(status, errorBody, errorMessage, payload));
      && (r.Success? <==> payload.NoBody? || payload.Converted?)
      && (payload.Converted? ==> r == Success(Some(payload.json)))
      && (payload.NoBody? ==> r == Success(None))
      && (payload.Unconvertible? ==> r.Failure? && r.error.Is(WeatherSdk))
      && (payload.Undecodable? ==> r == Failure(SdkError(Network, "Network error: " + payload.message)))
  {
  }

  /** An SDK exception raised anywhere in the call reaches the caller
      unchanged; any other exception reaches it as a network error carrying
      the original message. */
  lemma FailuresSurfaceAsSdkErrors(client: Client, city: string, cause: Failure)
    requires !IsBlank(city)
    ensures var p := FetchWeather(client, Some(city), PipelineFailure(cause));
            var c := FetchWeather(client, Some(city), CallFailure(cause));
      && (cause.SdkError? ==> p == Failure(cause) && c == Failure(cause))
      && (cause.Foreign? ==>
            && p == Failure(SdkError(Network, "Network error: " + cause.message))
            && c == Failure(SdkError(Network, "Unexpected network error: " + cause.message)))
  {
  }
}
