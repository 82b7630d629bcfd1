/** The Kotlin `CustomCheckoutEventProcessor`: forwards SDK checkout callbacks to
    JavaScript. Emitting is modelled as appending to the emitter's log, and
    Jackson's `writeValueAsString` as a parameter returning `None` where it
    would throw an IOException. */
module KotlinEventProcessor {
  import opened Wrappers
  import opened CheckoutEvents

  /** What the processor hands to the JSON serialiser. */
  datatype Serializable =
    | CompletedEventJson(event: CheckoutCompletedEvent)
    | PixelEventJson(pixel: PixelEvent)
    | ErrorDetailsJson(entries: Entries)

  /** `getErrorTypeName`: a `when` over `is` tests, first match wins. */
  function GetErrorTypeName(error: CheckoutException): (r: string)
    ensures r == ErrorTypeName(error)
    ensures r in ErrorTypeNames
    ensures r == "CheckoutHTTPError" <==>
      HttpException in error.classes
      && CheckoutExpiredException !in error.classes && ClientException !in error.classes
    ensures r == UnknownErrorName <==>
      forall c: ExceptionClass :: c !in error.classes
  {
    ErrorTypeNameInOrder(error);
    UnknownExactlyWhenUnclassified(error);
    if CheckoutExpiredException in error.classes then "CheckoutExpiredError"
    else if ClientException in error.classes then "CheckoutClientError"
    else if HttpException in error.classes then "CheckoutHTTPError"
    else if ConfigurationException in error.classes then "ConfigurationError"
    else if CheckoutSheetKitException in error.classes then "InternalError"
    else "UnknownError"
  }

  /** `populateErrorDetails`: an insertion-ordered dictionary with the four base
      keys in a fixed order, then `statusCode` for an HttpException. */
  function PopulateErrorDetails(error: CheckoutException): (entries: Entries)
    ensures IsErrorDetails(error, ToMap(entries))
    ensures EntryKeys(entries) ==
      ["__typename", "message", "recoverable", "code"]
      + (if HttpException in error.classes then ["statusCode"] else [])
  {
    var e0 := Put([], "__typename", JString(GetErrorTypeName(error)));
    assert EntryKeys(e0) == ["__typename"];
    var e1 := Put(e0, "message", JString(error.errorDescription));
    assert EntryKeys(e1) == ["__typename", "message"];
    var e2 := Put(e1, "recoverable", JBool(error.isRecoverable));
    assert EntryKeys(e2) == ["__typename", "message", "recoverable"];
    var e3 := Put(e2, "code", JString(error.errorCode));
    assert EntryKeys(e3) == ["__typename", "message", "recoverable", "code"];
    ErrorDetailsByUpdates(error, GetErrorTypeName(error));
    if HttpException in error.classes then Put(e3, "statusCode", JInt(error.statusCode)) else e3
  }

  /** What the callback serialises; cancellation serialises nothing. */
  function PayloadOf(callback: Callback): Option<Serializable> {
    match callback
    case CheckoutCompleted(event) => Some(CompletedEventJson(event))
    case WebPixelEvent(pixel) => Some(PixelEventJson(pixel))
    case CheckoutFailed(error) => Some(ErrorDetailsJson(PopulateErrorDetails(error)))
    case CheckoutCanceled => None
  }

  /** One SDK callback. A serialisation failure is only logged, so nothing is
      emitted; otherwise exactly one event is emitted, under the callback's
      event name, carrying the serialised text. Cancellation always emits one
      `close` event with no data. */
  function Handle(emitted: seq<Emission>, writeValueAsString: Serializable -> Option<string>, callback: Callback)
    : (after: seq<Emission>)
    ensures callback.CheckoutCanceled? ==> after == emitted + [Emission(EventNameFor(callback), NullParams)]
    ensures !callback.CheckoutCanceled? ==>
      (match writeValueAsString(PayloadOf(callback).value)
       case None => after == emitted
       case Some(data) => after == emitted + [Emission(EventNameFor(callback), StringData(data))])
  {
    match callback
    case CheckoutCompleted(event) =>
      (match writeValueAsString(CompletedEventJson(event))
       case Some(data) => SendEventWithStringData(emitted, "completed", data)
       case None => emitted)
    case WebPixelEvent(pixel) =>
      (match writeValueAsString(PixelEventJson(pixel))
       case Some(data) => SendEventWithStringData(emitted, "pixel", data)
       case None => emitted)
    case CheckoutFailed(error) =>
      (match writeValueAsString(ErrorDetailsJson(PopulateErrorDetails(error)))
       case Some(data) => SendEventWithStringData(emitted, "error", data)
       case None => emitted)
    case CheckoutCanceled => SendEvent(emitted, "close")
  }

  /** The processor keeps no state of its own: what a callback emits does not
      depend on what was emitted before. */
  lemma HandleOnlyAppends(emitted: seq<Emission>, writeValueAsString: Serializable -> Option<string>, callback: Callback)
    ensures Handle(emitted, writeValueAsString, callback) == emitted + Handle([], writeValueAsString, callback)
  {
  }

  /** A run of callbacks, delivered by the SDK one after another. */
  function HandleAll(emitted: seq<Emission>, writeValueAsString: Serializable -> Option<string>, callbacks: seq<Callback>)
    : seq<Emission>
    decreases |callbacks|
  {
    if |callbacks| == 0 then emitted
    else HandleAll(Handle(emitted, writeValueAsString, callbacks[0]), writeValueAsString, callbacks[1..])
  }

  /** The events of each callback on its own, concatenated in callback order. */
  function EventsOf(writeValueAsString: Serializable -> Option<string>, callbacks: seq<Callback>): seq<Emission>
    decreases |callbacks|
  {
    if |callbacks| == 0 then []
    else Handle([], writeValueAsString, callbacks[0]) + EventsOf(writeValueAsString, callbacks[1..])
  }

  lemma ConcatAssociative(a: seq<Emission>, b: seq<Emission>, c: seq<Emission>)
    ensures (a + b) + c == a + (b + c)
  {
  }

  /** One callback into a run: its own events go first, then the rest of the run. */
  lemma HandleAllStep(emitted: seq<Emission>, writeValueAsString: Serializable -> Option<string>, callbacks: seq<Callback>)
    requires |callbacks| > 0
    ensures HandleAll(emitted, writeValueAsString, callbacks)
         == HandleAll(emitted + Handle([], writeValueAsString, callbacks[0]), writeValueAsString, callbacks[1..])
  {
    HandleOnlyAppends(emitted, writeValueAsString, callbacks[0]);
  }

  /** Over a run of callbacks the log is the earlier log followed by each
      callback's own events (at most one, under its name), in callback order. */
  lemma {:induction false} HandleAllLog(
    emitted: seq<Emission>, writeValueAsString: Serializable -> Option<string>, callbacks: seq<Callback>)
    ensures HandleAll(emitted, writeValueAsString, callbacks) == emitted + EventsOf(writeValueAsString, callbacks)
    decreases |callbacks|
  {
    if |callbacks| == 0 {
      assert emitted + [] == emitted;
    } else {
      var own := Handle([], writeValueAsString, callbacks[0]);
      var later := EventsOf(writeValueAsString, callbacks[1..]);
      assert EventsOf(writeValueAsString, callbacks) == own + later;
      HandleAllStep(emitted, writeValueAsString, callbacks);
      HandleAllLog(emitted + own, writeValueAsString, callbacks[1..]);
      ConcatAssociative(emitted, own, later);
    }
  }
}
