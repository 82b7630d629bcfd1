/** The Kotlin and Java event processors are two implementations of the same
    behaviour: they classify every error alike, build the same error payload
    up to the Kotlin map's key order, and emit the same events up to the key
    order of the error payload's JSON text. */
module ProcessorAgreement {
  import opened Wrappers
  import opened CheckoutEvents
  import Kt = KotlinEventProcessor
  import Java = JavaEventProcessor

  lemma SameErrorTypeName(error: CheckoutException)
    ensures Kt.GetErrorTypeName(error) == Java.GetErrorTypeName(error)
  {
  }

  lemma SameErrorDetails(error: CheckoutException)
    ensures ToMap(Kt.PopulateErrorDetails(error)) == Java.PopulateErrorDetails(error)
  {
    ErrorDetailsUnique(error, ToMap(Kt.PopulateErrorDetails(error)), Java.PopulateErrorDetails(error));
  }

  /** The Kotlin processor's `writeValueAsString`, built from one serialiser for
      each kind of payload. The dictionary serialiser sees the entries but not
      their insertion order. */
  function KtWriter(
    writeCompleted: CheckoutCompletedEvent -> Option<string>,
    writePixel: PixelEvent -> Option<string>,
    writeMap: map<string, JsonValue> -> Option<string>): Kt.Serializable -> Option<string>
  {
    (s: Kt.Serializable) =>
      match s
      case CompletedEventJson(event) => writeCompleted(event)
      case PixelEventJson(pixel) => writePixel(pixel)
      case ErrorDetailsJson(entries) => writeMap(ToMap(entries))
  }

  /** The Java processor's `writeValueAsString`, from the same serialisers. */
  function JavaWriter(
    writeCompleted: CheckoutCompletedEvent -> Option<string>,
    writePixel: PixelEvent -> Option<string>,
    writeMap: map<string, JsonValue> -> Option<string>): Java.Serializable -> Option<string>
  {
    (s: Java.Serializable) =>
      match s
      case CompletedEventJson(event) => writeCompleted(event)
      case PixelEventJson(pixel) => writePixel(pixel)
      case ErrorDetailsJson(details) => writeMap(details)
  }

  /** With one serialiser that writes a dictionary without regard to key order,
      both processors append the same events for every callback, the error
      payload included. */
  lemma SameEmissions(
    emitted: seq<Emission>,
    writeCompleted: CheckoutCompletedEvent -> Option<string>,
    writePixel: PixelEvent -> Option<string>,
    writeMap: map<string, JsonValue> -> Option<string>,
    callback: Callback)
    ensures Kt.Handle(emitted, KtWriter(writeCompleted, writePixel, writeMap), callback)
         == Java.Handle(emitted, JavaWriter(writeCompleted, writePixel, writeMap), callback)
  {
    if callback.CheckoutFailed? {
      SameErrorDetails(callback.error);
    }
  }
}
