/** The Java twin of the checkout event processor. It differs from the Kotlin one
    in three ways the model keeps: event names come from a `CheckoutEvent` enum,
    the error payload is a `HashMap` (no key order), and geolocation prompts from
    the checkout web view are answered. */
module JavaEventProcessor {
  import opened Wrappers
  import opened CheckoutEvents

  /** The private `CheckoutEvent` enum. */
  datatype CheckoutEvent = COMPLETED | PIXEL | CLOSE | ERROR

  /** `CheckoutEvent.getValue()`: each constant carries one of the event names. */
  function GetValue(event: CheckoutEvent): (value: string)
    ensures value in EventNames
  {
    match event
    case COMPLETED => "completed"
    case PIXEL => "pixel"
    case CLOSE => "close"
    case ERROR => "error"
  }

  /** The enum's values are four distinct names, so the four constants cover
      the four event names one to one. */
  lemma GetValueInjective(a: CheckoutEvent, b: CheckoutEvent)
    requires GetValue(a) == GetValue(b)
    ensures a == b
  {
  }

  /** What the processor hands to the JSON serialiser. */
  datatype Serializable =
    | CompletedEventJson(event: CheckoutCompletedEvent)
    | PixelEventJson(pixel: PixelEvent)
    | ErrorDetailsJson(details: map<string, JsonValue>)

  /** `getErrorTypeName`: an `instanceof` chain, first match wins. */
  function GetErrorTypeName(error: CheckoutException): (r: string)
    ensures r == ErrorTypeName(error)
    ensures r in ErrorTypeNames
  {
    ErrorTypeNameInOrder(error);
    if CheckoutExpiredException in error.classes then
      "CheckoutExpiredError"
    else if ClientException in error.classes then
      "CheckoutClientError"
    else if HttpException in error.classes then
      "CheckoutHTTPError"
    else if ConfigurationException in error.classes then
      "ConfigurationError"
    else if CheckoutSheetKitException in error.classes then
      "InternalError"
    else
      "UnknownError"
  }

  /** `populateErrorDetails`: a HashMap with the four base keys, plus
      `statusCode` for an HttpException. */
  function PopulateErrorDetails(error: CheckoutException): (errorMap: map<string, JsonValue>)
    ensures IsErrorDetails(error, errorMap)
  {
    ErrorDetailsByUpdates(error, GetErrorTypeName(error));
    var errorMap := map[]
      ["__typename" := JString(GetErrorTypeName(error))]
      ["message" := JString(error.errorDescription)]
      ["recoverable" := JBool(error.isRecoverable)]
      ["code" := JString(error.errorCode)];
    if HttpException in error.classes then errorMap["statusCode" := JInt(error.statusCode)] else errorMap
  }

  /** What the callback serialises; cancellation serialises nothing. */
  function PayloadOf(callback: Callback): Option<Serializable> {
    match callback
    case CheckoutCompleted(event) => Some(CompletedEventJson(event))
    case WebPixelEvent(pixel) => Some(PixelEventJson(pixel))
    case CheckoutFailed(error) => Some(ErrorDetailsJson(PopulateErrorDetails(error)))
    case CheckoutCanceled => None
  }

  /** One SDK callback: an IOException from the serialiser is only logged, so
      nothing is emitted; otherwise exactly one event under the callback's enum
      value, carrying the serialised text; cancellation always emits one
      `close` event with no data. */
  function Handle(emitted: seq<Emission>, writeValueAsString: Serializable -> Option<string>, callback: Callback)
    : (after: seq<Emission>)
    ensures callback.CheckoutCanceled? ==> after == emitted + [Emission(EventNameFor(callback), NullParams)]
    ensures !callback.CheckoutCanceled? ==>
      (match writeValueAsString(PayloadOf(callback).value)
       case None => after == emitted
       case Some(data) => after == emitted + [Emission(EventNameFor(callback), StringData(data))])
  {
    match callback
    case CheckoutCompleted(event) =>
      (match writeValueAsString(CompletedEventJson(event))
       case Some(data) => SendEventWithStringData(emitted, GetValue(COMPLETED), data)
       case None => emitted)
    case WebPixelEvent(pixel) =>
      (match writeValueAsString(PixelEventJson(pixel))
       case Some(data) => SendEventWithStringData(emitted, GetValue(PIXEL), data)
       case None => emitted)
    case CheckoutFailed(error) =>
      (match writeValueAsString(ErrorDetailsJson(PopulateErrorDetails(error)))
       case Some(data) => SendEventWithStringData(emitted, GetValue(ERROR), data)
       case None => emitted)
    case CheckoutCanceled => SendEvent(emitted, GetValue(CLOSE))
  }

  /** The arguments of `GeolocationPermissions.Callback.invoke(origin, allow, retain)`. */
  datatype GeolocationAnswer = GeolocationAnswer(origin: string, allow: bool, retain: bool)

  /** `onGeolocationPermissionsShowPrompt`: every origin is granted location
      access, and the decision is remembered. */
  function OnGeolocationPermissionsShowPrompt(origin: string): (answer: GeolocationAnswer)
    ensures answer.origin == origin
    ensures answer.allow && answer.retain
  {
    var grant := true;
    var retain := true;
    GeolocationAnswer(origin, grant, retain)
  }
}
