/** React Native's `ReadableMap`: the plain-data object a JavaScript caller passes
    to a native module. Values are strings, booleans, nested maps, explicit
    `null`s, or anything else (numbers, arrays). */
module ReadableMaps {
  import opened Wrappers

  datatype Value =
    | Null
    | Bool(b: bool)
    | Str(s: string)
    | Map(entries: map<string, Value>)
    | OtherValue

  type ReadableMap = map<string, Value>

  /** Why a bridge accessor throws instead of returning: the value has another
      type (`UnexpectedNativeTypeException`), or a primitive was asked of a
      missing or `null` value (`NoSuchKeyException`). */
  datatype BridgeError = UnexpectedType(key: string) | NoSuchKey(key: string)

  /** `hasKey`: the key is present, even when it holds an explicit `null`. */
  predicate HasKey(m: ReadableMap, key: string) {
    key in m
  }

  /** Reading `key` as a nullable string does not throw. */
  predicate StringOrNull(m: ReadableMap, key: string) {
    key !in m || m[key].Null? || m[key].Str?
  }

  /** Reading `key` as a nullable map does not throw. */
  predicate MapOrNull(m: ReadableMap, key: string) {
    key !in m || m[key].Null? || m[key].Map?
  }

  /** `getString`: `null` for a missing key or an explicit `null`, the string
      itself, or a throw for a value of any other type. */
  function GetString(m: ReadableMap, key: string): (r: Result<Option<string>, BridgeError>)
    ensures r.Failure? <==> !StringOrNull(m, key)
    ensures r.Success? ==> (r.value.Some? <==> key in m && m[key].Str?)
    ensures r.Success? && r.value.Some? ==> m[key] == Str(r.value.value)
  {
    if key !in m then Success(None)
    else match m[key]
      case Null => Success(None)
      case Str(s) => Success(Some(s))
      case _ => Failure(UnexpectedType(key))
  }

  /** `getMap`: `null` for a missing key or an explicit `null`, the nested map
      itself, or a throw for a value of any other type. */
  function GetMap(m: ReadableMap, key: string): (r: Result<Option<ReadableMap>, BridgeError>)
    ensures r.Failure? <==> !MapOrNull(m, key)
    ensures r.Success? ==> (r.value.Some? <==> key in m && m[key].Map?)
    ensures r.Success? && r.value.Some? ==> m[key] == Map(r.value.value)
  {
    if key !in m then Success(None)
    else match m[key]
      case Null => Success(None)
      case Map(entries) => Success(Some(entries))
      case _ => Failure(UnexpectedType(key))
  }

  /** `getBoolean` returns a primitive `boolean`, so a key that does not hold a
      boolean makes the call throw. */
  function GetBoolean(m: ReadableMap, key: string): (r: Result<bool, BridgeError>)
    ensures r.Success? <==> key in m && m[key].Bool?
    ensures r.Success? ==> m[key] == Bool(r.value)
    ensures r.Failure? && key in m && !m[key].Null? ==> r.error == UnexpectedType(key)
  {
    if key !in m then Failure(NoSuchKey(key))
    else match m[key]
      case Bool(b) => Success(b)
      case Null => Failure(NoSuchKey(key))
      case _ => Failure(UnexpectedType(key))
  }
}
