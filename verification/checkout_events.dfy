/** What both checkout event processors (the Kotlin one and its Java twin) must
    do: how a checkout error is classified and reported, which event name each
    SDK callback is forwarded under, and the shape of the event log they
    append to. */
module CheckoutEvents {
  import opened Wrappers

  /** The SDK exception classes the processors test for with `is`/`instanceof`. */
  datatype ExceptionClass =
    | CheckoutExpiredException
    | ClientException
    | HttpException
    | ConfigurationException
    | CheckoutSheetKitException

  /** A `CheckoutException` as the processors see it: the classes it is an
      instance of, and the fields they read. `statusCode` exists on, and is read
      from, an HttpException only. */
  datatype CheckoutException = CheckoutException(
    classes: set<ExceptionClass>,
    errorDescription: string,
    isRecoverable: bool,
    errorCode: string,
    statusCode: int)

  /** The classes in the order they are tested, each with the `__typename` it
      gives; an error that is none of them is an "UnknownError". */
  const TypeNameTable: seq<(ExceptionClass, string)> := [
    (CheckoutExpiredException, "CheckoutExpiredError"),
    (ClientException, "CheckoutClientError"),
    (HttpException, "CheckoutHTTPError"),
    (ConfigurationException, "ConfigurationError"),
    (CheckoutSheetKitException, "InternalError")]

  const UnknownErrorName: string := "UnknownError"

  /** The name of the first class in `table` that `error` is an instance of. */
  function FirstMatch(table: seq<(ExceptionClass, string)>, error: CheckoutException): string {
    if |table| == 0 then UnknownErrorName
    else if table[0].0 in error.classes then table[0].1
    else FirstMatch(table[1..], error)
  }

  /** The reference classification. */
  function ErrorTypeName(error: CheckoutException): string {
    FirstMatch(TypeNameTable, error)
  }

  /** The reference classification spelled out class by class. */
  lemma {:induction false} ErrorTypeNameInOrder(error: CheckoutException)
    ensures ErrorTypeName(error) ==
      if CheckoutExpiredException in error.classes then "CheckoutExpiredError"
      else if ClientException in error.classes then "CheckoutClientError"
      else if HttpException in error.classes then "CheckoutHTTPError"
      else if ConfigurationException in error.classes then "ConfigurationError"
      else if CheckoutSheetKitException in error.classes then "InternalError"
      else UnknownErrorName
  {
    var t0 := TypeNameTable;
    var t1 := t0[1..];
    var t2 := t1[1..];
    var t3 := t2[1..];
    var t4 := t3[1..];
    assert t4 == [(CheckoutSheetKitException, "InternalError")];
    assert FirstMatch(t4[1..], error) == UnknownErrorName;
    assert FirstMatch(t4, error) ==
      if CheckoutSheetKitException in error.classes then "InternalError" else UnknownErrorName;
    assert t3[0] == (ConfigurationException, "ConfigurationError");
    assert FirstMatch(t3, error) ==
      if ConfigurationException in error.classes then "ConfigurationError" else FirstMatch(t4, error);
    assert t2[0] == (HttpException, "CheckoutHTTPError");
    assert FirstMatch(t2, error) ==
      if HttpException in error.classes then "CheckoutHTTPError" else FirstMatch(t3, error);
    assert t1[0] == (ClientException, "CheckoutClientError");
    assert FirstMatch(t1, error) ==
      if ClientException in error.classes then "CheckoutClientError" else FirstMatch(t2, error);
    assert t0[0] == (CheckoutExpiredException, "CheckoutExpiredError");
    assert FirstMatch(t0, error) ==
      if CheckoutExpiredException in error.classes then "CheckoutExpiredError" else FirstMatch(t1, error);
  }

  /** An error is an "UnknownError" exactly when it is an instance of none of
      the five classes. */
  lemma UnknownExactlyWhenUnclassified(error: CheckoutException)
    ensures ErrorTypeName(error) == UnknownErrorName <==> forall c: ExceptionClass :: c !in error.classes
  {
    ErrorTypeNameInOrder(error);
    if ErrorTypeName(error) == UnknownErrorName {
      forall c: ExceptionClass ensures c !in error.classes {
        match c
        case CheckoutExpiredException =>
        case ClientException =>
        case HttpException =>
        case ConfigurationException =>
        case CheckoutSheetKitException =>
      }
    }
  }

  /** The six names a checkout error can be reported under. */
  const ErrorTypeNames: set<string> := {
    "CheckoutExpiredError", "CheckoutClientError", "CheckoutHTTPError",
    "ConfigurationError", "InternalError", "UnknownError"}

  /** A JSON-serialisable value inside an error payload. */
  datatype JsonValue = JString(s: string) | JBool(b: bool) | JInt(i: int)

  /** The keys every error payload has. */
  const BaseErrorKeys: set<string> := {"__typename", "message", "recoverable", "code"}

  /** The error payload sent to JavaScript, as a dictionary: the four base keys,
      plus `statusCode` exactly for an HttpException, and nothing else. */
  predicate IsErrorDetails(error: CheckoutException, details: map<string, JsonValue>) {
    && details.Keys == BaseErrorKeys + (if HttpException in error.classes then {"statusCode"} else {})
    && details["__typename"] == JString(ErrorTypeName(error))
    && details["message"] == JString(error.errorDescription)
    && details["recoverable"] == JBool(error.isRecoverable)
    && details["code"] == JString(error.errorCode)
    && (HttpException in error.classes ==> details["statusCode"] == JInt(error.statusCode))
  }

  /** The four base entries, then `statusCode` for an HttpException, written
      into an empty dictionary one after another, form the error payload. */
  lemma ErrorDetailsByUpdates(error: CheckoutException, typeName: string)
    requires typeName == ErrorTypeName(error)
    ensures var base := map[]
      ["__typename" := JString(typeName)]
      ["message" := JString(error.errorDescription)]
      ["recoverable" := JBool(error.isRecoverable)]
      ["code" := JString(error.errorCode)];
      IsErrorDetails(error,
        if HttpException in error.classes then base["statusCode" := JInt(error.statusCode)] else base)
  {
  }

  /** The payload is determined by the error: two payloads for one error agree. */
  lemma ErrorDetailsUnique(error: CheckoutException, a: map<string, JsonValue>, b: map<string, JsonValue>)
    requires IsErrorDetails(error, a) && IsErrorDetails(error, b)
    ensures a == b
  {
    forall k | k in a.Keys
      ensures a[k] == b[k]
    {
      assert k in BaseErrorKeys || k == "statusCode";
    }
  }

  /** The SDK's event objects; the processors never look inside them, they only
      hand them to the JSON serialiser. */
  datatype CheckoutCompletedEvent = CheckoutCompletedEvent(fields: map<string, JsonValue>)
  datatype PixelEvent = PixelEvent(fields: map<string, JsonValue>)

  /** The SDK callbacks that are forwarded to JavaScript. */
  datatype Callback =
    | CheckoutCompleted(event: CheckoutCompletedEvent)
    | WebPixelEvent(pixel: PixelEvent)
    | CheckoutFailed(error: CheckoutException)
    | CheckoutCanceled

  /** The four event names JavaScript listens on. */
  const EventNames: set<string> := {"completed", "pixel", "close", "error"}

  /** The event name JavaScript listens on for each callback. */
  function EventNameFor(callback: Callback): (name: string)
    ensures name in EventNames
  {
    match callback
    case CheckoutCompleted(_) => "completed"
    case WebPixelEvent(_) => "pixel"
    case CheckoutFailed(_) => "error"
    case CheckoutCanceled => "close"
  }

  /** Different callback kinds are told apart by their event names. */
  lemma EventNamesDistinguishCallbacks(a: Callback, b: Callback)
    requires EventNameFor(a) == EventNameFor(b)
    ensures a.CheckoutCompleted? <==> b.CheckoutCompleted?
    ensures a.WebPixelEvent? <==> b.WebPixelEvent?
    ensures a.CheckoutFailed? <==> b.CheckoutFailed?
    ensures a.CheckoutCanceled? <==> b.CheckoutCanceled?
  {
  }

  /** The data of an emitted event: serialised JSON text, or a `null` map. */
  datatype EventData = StringData(data: string) | NullParams

  /** One call of the React Native event emitter's `emit(name, data)`. */
  datatype Emission = Emission(name: string, data: EventData)

  /** `sendEventWithStringData(name, data)`: exactly one more event, carrying
      the text, after all earlier ones, which stay as they were. */
  function SendEventWithStringData(emitted: seq<Emission>, name: string, data: string): (after: seq<Emission>)
    ensures |after| == |emitted| + 1 && after[..|emitted|] == emitted
    ensures after[|emitted|].name == name && after[|emitted|].data == StringData(data)
  {
    emitted + [Emission(name, StringData(data))]
  }

  /** `sendEvent(name, null)`: exactly one more event, with no data, after all
      earlier ones, which stay as they were. */
  function SendEvent(emitted: seq<Emission>, name: string): (after: seq<Emission>)
    ensures |after| == |emitted| + 1 && after[..|emitted|] == emitted
    ensures after[|emitted|].name == name && after[|emitted|].data == NullParams
  {
    emitted + [Emission(name, NullParams)]
  }

  /** An ordered dictionary (Kotlin's `mutableMapOf`, a LinkedHashMap) as its
      entries in insertion order. */
  type Entries = seq<(string, JsonValue)>

  function EntryKeys(entries: Entries): seq<string> {
    seq(|entries|, i requires 0 <= i < |entries| => entries[i].0)
  }

  /** The dictionary an entry list denotes; a lookup finds the first entry with
      the key. */
  function ToMap(entries: Entries): map<string, JsonValue> {
    if |entries| == 0 then map[] else ToMap(entries[1..])[entries[0].0 := entries[0].1]
  }

  /** LinkedHashMap's `put`: an existing key keeps its place and takes the new
      value, a new key goes last. Either way the dictionary is updated as a map
      would be. */
  function Put(entries: Entries, key: string, value: JsonValue): (r: Entries)
    ensures ToMap(r) == ToMap(entries)[key := value]
    ensures key !in EntryKeys(entries) ==> EntryKeys(r) == EntryKeys(entries) + [key]
  {
    if |entries| == 0 then [(key, value)]
    else if entries[0].0 == key then
      var r := [(key, value)] + entries[1..];
      assert r[1..] == entries[1..];
      assert EntryKeys(entries)[0] == key;
      r
    else
      var rest := Put(entries[1..], key, value);
      var r := [entries[0]] + rest;
      assert r[1..] == rest;
      assert EntryKeys(entries) == [entries[0].0] + EntryKeys(entries[1..]);
      assert EntryKeys(r) == [entries[0].0] + EntryKeys(rest);
      r
  }
}
