# Checkout Sheet Kit React Native bridge (Android) — Dafny model

The Android side of the React Native Checkout Sheet Kit bridge does two things
of its own. `ShopifyCheckoutSheetKitModule` turns the configuration
dictionaries JavaScript passes to `setConfig` into the SDK's configuration:
the preloading switch, and a colour scheme whose palettes are built from
colour strings such as `#FF0000`. `CustomCheckoutEventProcessor` (written
twice, in Kotlin and in Java) forwards the SDK's checkout callbacks to
JavaScript as named events, and turns a checkout error into a JSON payload.

This project models that logic as pure functions over immutable values and
proves what it promises:

- `wrappers.dfy` (`Wrappers`) has `Option` for Kotlin's nullable values and
  `Result` for calls that throw.
- `kotlin_numbers.dfy` (`KotlinNumbers`) has the JVM's 64-bit `Long` and
  32-bit `Int`. It writes out `Long.toInt()` truncation and
  `or 0xFF000000` on two's-complement bit patterns.
- `hex_digits.dfy` (`HexDigits`) has base-16 digit strings and their values.
- `long_parse.dfy` (`LongParse`) has `toLong(16)`: a reference meaning,
  and the JDK's digit loop proved equal to it.
- `color_parsing.dfy` (`ColorParsing`) has `parseColor`.
- `readable_map.dfy` (`ReadableMaps`) has React Native's `ReadableMap` and the
  accessors the module calls.
- `color_config.dfy` (`ColorConfig`) has colour schemes, colour dictionaries,
  their validators and builders.
- `sheet_config.dfy` (`SheetConfig`) has `setConfig` and `getConfig` as a
  transition on a configuration record.
- `checkout_events.dfy` (`CheckoutEvents`) has what both processors must do:
  the ordered error classification, the error payload's shape and the
  callback-to-event-name table.
- `kotlin_event_processor.dfy` and `java_event_processor.dfy` have the two
  processors, each proved against that shared description.
- `processor_agreement.dfy` proves the two processors emit the same events,
  up to the key order of the error payload's JSON.

Some behaviour of the code as written is worth knowing:

- `parseColor("#FFF")` is a fully transparent colour (`0x00000FFF`). Alpha is
  forced only when exactly six characters remain after the `#`s are removed.
- `parseColor` also accepts a sign: `"+12345"` has six characters and so gets
  alpha 0xFF.
- `setConfig` validates `colors.android` as a flat colour dictionary before it
  asks `getColors` for any scheme. So the automatic scheme, which reads its
  palettes from the `light` and `dark` sub-dictionaries, gets them only when
  the four top-level colour keys are valid as well
  (`SheetConfig.AutomaticNeedsTopLevelColors`).

Three external collaborators are parameters or simple values here:

- The SDK's global configuration is passed in and returned.
- Jackson's `writeValueAsString` is a function parameter that returns `None`
  where it would throw an IOException.
- The React Native event emitter is a log that each `emit` appends to.

## Model

| member | source | states |
|---|---|---|
| KotlinNumbers.ToInt | modules/@shopify/checkout-sheet-kit/android/src/main/java/com/shopify/reactnative/checkoutsheetkit/ShopifyCheckoutSheetKitModule.kt:227 | `Long.toInt()` gives the unique 32-bit signed value congruent to the Long modulo 2^32 |
| KotlinNumbers.OrFullAlphaBits | modules/@shopify/checkout-sheet-kit/android/src/main/java/com/shopify/reactnative/checkoutsheetkit/ShopifyCheckoutSheetKitModule.kt:224 | `color or 0xFF000000` sets bits 24..31 of the 64-bit pattern and keeps every other bit; the low 32 bits become 0xFF000000 plus the low 24 bits of the input |
| KotlinNumbers.ToIntKeepsLowBits | modules/@shopify/checkout-sheet-kit/android/src/main/java/com/shopify/reactnative/checkoutsheetkit/ShopifyCheckoutSheetKitModule.kt:227 | the packed Int's unsigned bit pattern is the Long's value modulo 2^32 |
| HexDigits.DigitValue | modules/@shopify/checkout-sheet-kit/android/src/main/java/com/shopify/reactnative/checkoutsheetkit/ShopifyCheckoutSheetKitModule.kt:220 | a character is a base-16 digit exactly when it is 0-9, a-f or A-F, with value 0..15, otherwise -1 |
| HexDigits.HexValue | modules/@shopify/checkout-sheet-kit/android/src/main/java/com/shopify/reactnative/checkoutsheetkit/ShopifyCheckoutSheetKitModule.kt:220 | the value of an n-digit base-16 string is below 16^n |
| HexDigits.HexValuePrefix | modules/@shopify/checkout-sheet-kit/android/src/main/java/com/shopify/reactnative/checkoutsheetkit/ShopifyCheckoutSheetKitModule.kt:220 | appending digits never lowers the value, which is why an overflowing prefix rejects the whole string |
| LongParse.ToLong16 | modules/@shopify/checkout-sheet-kit/android/src/main/java/com/shopify/reactnative/checkoutsheetkit/ShopifyCheckoutSheetKitModule.kt:220 | `toLong(16)` accepts exactly an optional sign, at least one base-16 digit and a value in the Long range, and returns that value; everything else is `None` (NumberFormatException) |
| LongParse.AccumulateDigits | modules/@shopify/checkout-sheet-kit/android/src/main/java/com/shopify/reactnative/checkoutsheetkit/ShopifyCheckoutSheetKitModule.kt:220 | the JDK's negated accumulation with its two overflow checks accepts exactly the digit strings whose signed value fits in a Long, and computes that value |
| LongParse.AccumulateDigit | modules/@shopify/checkout-sheet-kit/android/src/main/java/com/shopify/reactnative/checkoutsheetkit/ShopifyCheckoutSheetKitModule.kt:220 | one pass of the digit loop either rejects the whole string (a non-digit, or a prefix already past the bound) or extends the negated prefix value by one digit, staying within the Long range |
| LongParse.GuardedStep | modules/@shopify/checkout-sheet-kit/android/src/main/java/com/shopify/reactnative/checkoutsheetkit/ShopifyCheckoutSheetKitModule.kt:220 | the JDK's `multmin` and `limit + digit` guards reject a step exactly when the unsigned prefix value would pass the bound |
| LongParse.ParseUnsigned | modules/@shopify/checkout-sheet-kit/android/src/main/java/com/shopify/reactnative/checkoutsheetkit/ShopifyCheckoutSheetKitModule.kt:220 | unsigned digit text parses to its own value when it is at most Long.MAX_VALUE |
| ColorParsing.RemoveHashes | modules/@shopify/checkout-sheet-kit/android/src/main/java/com/shopify/reactnative/checkoutsheetkit/ShopifyCheckoutSheetKitModule.kt:219 | the cleaned text contains no `#`, is no longer than the input, and is the input itself when it had none |
| ColorParsing.RemoveHashesAppend | modules/@shopify/checkout-sheet-kit/android/src/main/java/com/shopify/reactnative/checkoutsheetkit/ShopifyCheckoutSheetKitModule.kt:219 | removing `#`s distributes over concatenation |
| ColorParsing.ParseColor | modules/@shopify/checkout-sheet-kit/android/src/main/java/com/shopify/reactnative/checkoutsheetkit/ShopifyCheckoutSheetKitModule.kt:217-232 | null exactly when `toLong(16)` rejects the text left after every `#` is removed |
| ColorParsing.ParseColorPattern | modules/@shopify/checkout-sheet-kit/android/src/main/java/com/shopify/reactnative/checkoutsheetkit/ShopifyCheckoutSheetKitModule.kt:220-227 | a parsed colour's `0xAARRGGBB` pattern is 0xFF000000 plus the parsed value's low 24 bits when six characters remain after cleaning, and the parsed value's low 32 bits otherwise |
| ColorParsing.ParseColorIgnoresHash | modules/@shopify/checkout-sheet-kit/android/src/main/java/com/shopify/reactnative/checkoutsheetkit/ShopifyCheckoutSheetKitModule.kt:219 | a `#` inserted anywhere does not change the parsed colour |
| ColorParsing.ParseColorSixDigits | modules/@shopify/checkout-sheet-kit/android/src/main/java/com/shopify/reactnative/checkoutsheetkit/ShopifyCheckoutSheetKitModule.kt:222-225 | six cleaned digits give alpha 0xFF and RGB equal to the digits' value |
| ColorParsing.ParseColorEightDigits | modules/@shopify/checkout-sheet-kit/android/src/main/java/com/shopify/reactnative/checkoutsheetkit/ShopifyCheckoutSheetKitModule.kt:220-227 | eight cleaned digits give exactly the digits' value as `0xAARRGGBB`, with no alpha added |
| ColorParsing.ParseColorOtherLengthsTransparent | modules/@shopify/checkout-sheet-kit/android/src/main/java/com/shopify/reactnative/checkoutsheetkit/ShopifyCheckoutSheetKitModule.kt:222-227 | any other length whose value is below 2^24 has alpha 0 and keeps its RGB |
| ColorParsing.ParseColorRejects | modules/@shopify/checkout-sheet-kit/android/src/main/java/com/shopify/reactnative/checkoutsheetkit/ShopifyCheckoutSheetKitModule.kt:228-231 | empty text, a bare sign, a non-digit or a magnitude beyond 2^63 gives null |
| ColorParsing.ParseFormattedRgb | modules/@shopify/checkout-sheet-kit/android/src/main/java/com/shopify/reactnative/checkoutsheetkit/ShopifyCheckoutSheetKitModule.kt:217-232 | `#RRGGBB` written from any 24-bit value parses back to the opaque colour with exactly that RGB |
| ColorParsing.ParseFormattedArgb | modules/@shopify/checkout-sheet-kit/android/src/main/java/com/shopify/reactnative/checkoutsheetkit/ShopifyCheckoutSheetKitModule.kt:217-232 | `#AARRGGBB` written from any 32-bit pattern parses back to exactly that pattern |
| ColorConfig.GetColorScheme | modules/@shopify/checkout-sheet-kit/android/src/main/java/com/shopify/reactnative/checkoutsheetkit/ShopifyCheckoutSheetKitModule.kt:98-103 | "web_default", "light" and "dark" give Web, Light and Dark, every other string gives Automatic, and each result carries only default palettes |
| ColorConfig.GetColorSchemeNamedKinds | modules/@shopify/checkout-sheet-kit/android/src/main/java/com/shopify/reactnative/checkoutsheetkit/ShopifyCheckoutSheetKitModule.kt:98-103 | two names giving the same non-automatic scheme are the same name |
| ColorConfig.KeyHoldsColor | modules/@shopify/checkout-sheet-kit/android/src/main/java/com/shopify/reactnative/checkoutsheetkit/ShopifyCheckoutSheetKitModule.kt:112 | one key's test throws exactly when the key holds neither a string nor null, and otherwise is true exactly when it holds a string that parses |
| ColorConfig.AllHoldColorsMeaning | modules/@shopify/checkout-sheet-kit/android/src/main/java/com/shopify/reactnative/checkoutsheetkit/ShopifyCheckoutSheetKitModule.kt:110-113 | the short-circuiting `all` is true exactly when every key holds a colour, and throws exactly when some key holds neither a string nor null while every key before it holds a colour |
| ColorConfig.IsValidColorConfig | modules/@shopify/checkout-sheet-kit/android/src/main/java/com/shopify/reactnative/checkoutsheetkit/ShopifyCheckoutSheetKitModule.kt:107-114 | null is invalid (false); otherwise true exactly when each of the four colour keys holds a string that parses, and a throw exactly when a key reached before the first key without a colour holds neither a string nor null |
| ColorConfig.AllColorKeys | modules/@shopify/checkout-sheet-kit/android/src/main/java/com/shopify/reactnative/checkoutsheetkit/ShopifyCheckoutSheetKitModule.kt:110-113 | every colour key holding a colour is the same as each of the four named keys holding one |
| ColorConfig.ParseColorFromConfig | modules/@shopify/checkout-sheet-kit/android/src/main/java/com/shopify/reactnative/checkoutsheetkit/ShopifyCheckoutSheetKitModule.kt:128-131 | throws exactly when the key holds neither a string nor null; otherwise a colour exactly when the key holds a string that parses, and then that string's colour |
| ColorConfig.CreateColorsFromConfig | modules/@shopify/checkout-sheet-kit/android/src/main/java/com/shopify/reactnative/checkoutsheetkit/ShopifyCheckoutSheetKitModule.kt:133-151 | null for a null dictionary; throws exactly when one of the four keys holds neither a string nor null; non-null exactly when `isValidColorConfig` is true, with webViewBackground, headerBackground, headerFont and progressIndicator parsed from backgroundColor, headerBackgroundColor, headerTextColor and progressIndicator |
| ColorConfig.IsValidColorScheme | modules/@shopify/checkout-sheet-kit/android/src/main/java/com/shopify/reactnative/checkoutsheetkit/ShopifyCheckoutSheetKitModule.kt:116-126 | false for null; for Light, Dark and Web the same answer, or throw, as `isValidColorConfig`; for a non-null dictionary, true exactly when the palettes the scheme needs can all be built (the `light` and `dark` sub-dictionaries for Automatic, the dictionary itself otherwise); never a throw when every value the check may read has the type it is read as |
| ColorConfig.SetColors | modules/@shopify/checkout-sheet-kit/android/src/main/java/com/shopify/reactnative/checkoutsheetkit/ShopifyCheckoutSheetKitModule.kt:170-174 | `setColors` keeps the scheme's kind and installs the palette |
| ColorConfig.GetColors | modules/@shopify/checkout-sheet-kit/android/src/main/java/com/shopify/reactnative/checkoutsheetkit/ShopifyCheckoutSheetKitModule.kt:153-180 | throws exactly when `isValidColorScheme` throws; non-null exactly when it is true; the result has the same kind with every palette set, from `light`/`dark` for Automatic and from the dictionary itself otherwise |
| ColorConfig.AutomaticColors | modules/@shopify/checkout-sheet-kit/android/src/main/java/com/shopify/reactnative/checkoutsheetkit/ShopifyCheckoutSheetKitModule.kt:157-167 | the automatic arm gives a scheme exactly when both the `light` and the `dark` sub-dictionary build a palette, and sets both palettes |
| ColorConfig.SingleColors | modules/@shopify/checkout-sheet-kit/android/src/main/java/com/shopify/reactnative/checkoutsheetkit/ShopifyCheckoutSheetKitModule.kt:168-177 | the other arm throws exactly when a colour key holds neither a string nor null, gives a scheme exactly when the dictionary builds a palette, keeps the scheme's kind and sets that palette |
| SheetConfig.AndroidColors | modules/@shopify/checkout-sheet-kit/android/src/main/java/com/shopify/reactnative/checkoutsheetkit/ShopifyCheckoutSheetKitModule.kt:191-192 | `colors.android` throws exactly when `colors` holds neither a map nor null, or is a map whose `android` holds neither; it is non-null exactly when both are maps, and then it is the nested map |
| SheetConfig.ConfiguredScheme | modules/@shopify/checkout-sheet-kit/android/src/main/java/com/shopify/reactnative/checkoutsheetkit/ShopifyCheckoutSheetKitModule.kt:193-201 | throws exactly when `isValidColorConfig` throws, or passes and `isValidColorScheme` throws; otherwise the stored scheme has the named kind, carries palettes exactly when `colors.android` passes both checks, and is otherwise the bare named scheme |
| SheetConfig.SchemeUpdate | modules/@shopify/checkout-sheet-kit/android/src/main/java/com/shopify/reactnative/checkoutsheetkit/ShopifyCheckoutSheetKitModule.kt:189-203 | a scheme name that is neither a string nor null throws; with a name, the new scheme has the named kind; with a null name, the scheme is unchanged |
| SheetConfig.SetConfig | modules/@shopify/checkout-sheet-kit/android/src/main/java/com/shopify/reactnative/checkoutsheetkit/ShopifyCheckoutSheetKitModule.kt:182-207 | a `preloading` value that is not a boolean throws before anything is set; without `colorScheme`, it throws exactly then; after a throw, the configuration the block left keeps the old scheme and holds the new preloading value only when that value was read |
| SheetConfig.GetConfig | modules/@shopify/checkout-sheet-kit/android/src/main/java/com/shopify/reactnative/checkoutsheetkit/ShopifyCheckoutSheetKitModule.kt:209-215 | `getConfig` reports the stored preloading switch and the kind of the stored scheme |
| SheetConfig.WellTypedConfigSucceeds | modules/@shopify/checkout-sheet-kit/android/src/main/java/com/shopify/reactnative/checkoutsheetkit/ShopifyCheckoutSheetKitModule.kt:182-207 | a dictionary whose every value that `setConfig` may read has the type it is read as never makes it throw |
| SheetConfig.SetConfigThrowSites | modules/@shopify/checkout-sheet-kit/android/src/main/java/com/shopify/reactnative/checkoutsheetkit/ShopifyCheckoutSheetKitModule.kt:189-195 | once `preloading` is read, a wrongly typed scheme name, `colors`, `android`, or colour value reached by `isValidColorConfig` makes `setConfig` throw |
| SheetConfig.SetConfigPreloading | modules/@shopify/checkout-sheet-kit/android/src/main/java/com/shopify/reactnative/checkoutsheetkit/ShopifyCheckoutSheetKitModule.kt:185-187 | after a `setConfig` that does not throw, the preloading switch changed only when `preloading` was given, and then took its value |
| SheetConfig.SetConfigKeepsScheme | modules/@shopify/checkout-sheet-kit/android/src/main/java/com/shopify/reactnative/checkoutsheetkit/ShopifyCheckoutSheetKitModule.kt:189-190 | after a `setConfig` that does not throw, without a string under `colorScheme` the stored scheme is unchanged |
| SheetConfig.SetConfigScheme | modules/@shopify/checkout-sheet-kit/android/src/main/java/com/shopify/reactnative/checkoutsheetkit/ShopifyCheckoutSheetKitModule.kt:189-203 | after a `setConfig` that does not throw, with a scheme name, the stored scheme is of the named kind, has palettes exactly when both validations pass, and is bare otherwise |
| SheetConfig.AutomaticNeedsTopLevelColors | modules/@shopify/checkout-sheet-kit/android/src/main/java/com/shopify/reactnative/checkoutsheetkit/ShopifyCheckoutSheetKitModule.kt:191-203 | an automatic scheme stays bare when `colors.android` lacks valid top-level colour keys, whatever its light and dark parts hold |
| SheetConfig.SetConfigIdempotent | modules/@shopify/checkout-sheet-kit/android/src/main/java/com/shopify/reactnative/checkoutsheetkit/ShopifyCheckoutSheetKitModule.kt:182-207 | applying a dictionary that does not throw a second time gives the same configuration as applying it once |
| SheetConfig.GetConfigAfterSetConfig | modules/@shopify/checkout-sheet-kit/android/src/main/java/com/shopify/reactnative/checkoutsheetkit/ShopifyCheckoutSheetKitModule.kt:209-215 | `getConfig` after a `setConfig` that does not throw reports the given preloading value (or the previous one when absent) and the kind of the named scheme |
| CheckoutEvents.ErrorTypeNameInOrder | modules/@shopify/checkout-sheet-kit/android/src/main/java/com/shopify/reactnative/checkoutsheetkit/CustomCheckoutEventProcessor.kt:83-90 | the classification table, read first match first, is the chain Expired, Client, HTTP, Configuration, SheetKit, else UnknownError |
| CheckoutEvents.UnknownExactlyWhenUnclassified | modules/@shopify/checkout-sheet-kit/android/src/main/java/com/shopify/reactnative/checkoutsheetkit/CustomCheckoutEventProcessor.kt:89 | an error is "UnknownError" exactly when it is an instance of none of the five classes |
| CheckoutEvents.ErrorDetailsUnique | modules/@shopify/checkout-sheet-kit/android/src/main/java/com/shopify/reactnative/checkoutsheetkit/CustomCheckoutEventProcessor.kt:70-81 | the error payload is fully determined by the error |
| CheckoutEvents.EventNamesDistinguishCallbacks | modules/@shopify/checkout-sheet-kit/android/src/main/java/com/shopify/reactnative/checkoutsheetkit/CustomCheckoutEventProcessor.kt:43-94 | callbacks of different kinds are forwarded under different event names |
| CheckoutEvents.SendEventWithStringData | modules/@shopify/checkout-sheet-kit/android/src/main/java/com/shopify/reactnative/checkoutsheetkit/CustomCheckoutEventProcessor.kt:102-106 | one more event, carrying the given name and text, after every earlier event, which stay unchanged |
| CheckoutEvents.SendEvent | modules/@shopify/checkout-sheet-kit/android/src/main/java/com/shopify/reactnative/checkoutsheetkit/CustomCheckoutEventProcessor.kt:96-100 | one more event, carrying the given name and null data, after every earlier event, which stay unchanged |
| CheckoutEvents.Put | modules/@shopify/checkout-sheet-kit/android/src/main/java/com/shopify/reactnative/checkoutsheetkit/CustomCheckoutEventProcessor.kt:71-79 | a LinkedHashMap `put` updates the dictionary like a map update, and appends a new key at the end of the key order |
| KotlinEventProcessor.GetErrorTypeName | modules/@shopify/checkout-sheet-kit/android/src/main/java/com/shopify/reactnative/checkoutsheetkit/CustomCheckoutEventProcessor.kt:83-90 | the name is the first match in the fixed class order, one of the six names, "CheckoutHTTPError" exactly for an HttpException that is neither expired nor client, "UnknownError" exactly for an unclassified error |
| KotlinEventProcessor.PopulateErrorDetails | modules/@shopify/checkout-sheet-kit/android/src/main/java/com/shopify/reactnative/checkoutsheetkit/CustomCheckoutEventProcessor.kt:70-81 | keys are __typename, message, recoverable, code in that order, plus statusCode exactly for an HttpException; __typename is the classification and the other values are the error's fields |
| KotlinEventProcessor.Handle | modules/@shopify/checkout-sheet-kit/android/src/main/java/com/shopify/reactnative/checkoutsheetkit/CustomCheckoutEventProcessor.kt:43-94 | completion, pixel and failure each emit exactly one event under "completed", "pixel" or "error" carrying the serialised text, or nothing when serialisation fails; cancel emits one "close" event with null data |
| KotlinEventProcessor.HandleAllLog | modules/@shopify/checkout-sheet-kit/android/src/main/java/com/shopify/reactnative/checkoutsheetkit/CustomCheckoutEventProcessor.kt:43-94 | over a run of callbacks the log is the earlier log followed by the events of each callback on its own, concatenated in callback order |
| KotlinEventProcessor.HandleOnlyAppends | modules/@shopify/checkout-sheet-kit/android/src/main/java/com/shopify/reactnative/checkoutsheetkit/CustomCheckoutEventProcessor.kt:43-94 | the processor keeps no state: a callback appends the same events whatever was emitted before |
| JavaEventProcessor.GetValue | modules/@shopify/checkout-sheet-kit/android/src/main/java/com/shopify/reactnative/checkoutsheetkit/CustomCheckoutEventProcessor.java:47-61 | each enum constant's value is one of the four event names |
| JavaEventProcessor.GetValueInjective | modules/@shopify/checkout-sheet-kit/android/src/main/java/com/shopify/reactnative/checkoutsheetkit/CustomCheckoutEventProcessor.java:47-51 | the four enum values are distinct, so the constants cover the four event names one to one |
| JavaEventProcessor.GetErrorTypeName | modules/@shopify/checkout-sheet-kit/android/src/main/java/com/shopify/reactnative/checkoutsheetkit/CustomCheckoutEventProcessor.java:173-187 | the `instanceof` chain gives the same first-match classification, one of the six names |
| JavaEventProcessor.PopulateErrorDetails | modules/@shopify/checkout-sheet-kit/android/src/main/java/com/shopify/reactnative/checkoutsheetkit/CustomCheckoutEventProcessor.java:154-166 | the HashMap has exactly __typename, message, recoverable and code, plus statusCode exactly for an HttpException, with the same values |
| JavaEventProcessor.Handle | modules/@shopify/checkout-sheet-kit/android/src/main/java/com/shopify/reactnative/checkoutsheetkit/CustomCheckoutEventProcessor.java:82-129 | the same emission behaviour as the Kotlin processor, through the enum values: one named event with the serialised text, nothing after an IOException, one "close" with null data on cancel |
| JavaEventProcessor.OnGeolocationPermissionsShowPrompt | modules/@shopify/checkout-sheet-kit/android/src/main/java/com/shopify/reactnative/checkoutsheetkit/CustomCheckoutEventProcessor.java:137-145 | the callback is invoked with the same origin, allow = true and retain = true |
| ProcessorAgreement.SameErrorTypeName | modules/@shopify/checkout-sheet-kit/android/src/main/java/com/shopify/reactnative/checkoutsheetkit/CustomCheckoutEventProcessor.java:173-187 | the Kotlin and Java classifications agree on every error |
| ProcessorAgreement.SameErrorDetails | modules/@shopify/checkout-sheet-kit/android/src/main/java/com/shopify/reactnative/checkoutsheetkit/CustomCheckoutEventProcessor.java:154-166 | the Kotlin payload, read as a dictionary, equals the Java payload for every error |
| ProcessorAgreement.SameEmissions | modules/@shopify/checkout-sheet-kit/android/src/main/java/com/shopify/reactnative/checkoutsheetkit/CustomCheckoutEventProcessor.java:82-129 | with one serialiser per payload kind, whose dictionary serialiser sees entries but not their order, both processors append the same events for every callback |

## Left out

- `present`, `dismiss`, `preload`, `invalidateCache`, `getName` and `getConstants` are left out. They are Activity and UI-thread plumbing, or calls into the SDK.
- `addListener` and `removeListeners` are left out because they do nothing.
- The module's `init` block and the SDK's `configure` callback mechanism are left out. `setConfig` is a pure function from the old configuration to the new one. The platform tag `init` sets is not modelled.
- The SDK's `ColorScheme.id` strings are not visible. So `getConfig` reports the stored scheme's kind, not its id string, and no name/id round trip is stated.
- The palettes of a freshly constructed SDK scheme are SDK defaults. They are modelled as `None`, not as colour values.
- The SDK's exception hierarchy is not visible. An error is modelled by the set of the five classes it is an instance of, so that the first-match order is visible.
- `errorCode` is modelled as a string.
- Jackson's serialiser is a parameter. What text it produces is not modelled.
- ProcessorAgreement.SameEmissions: the processors are shown to emit the same events only for a dictionary serialiser that ignores key order. Jackson writes the Kotlin `LinkedHashMap` in insertion order and the Java `HashMap` in hash order, so the two error texts may list the keys differently.
- `Log.e` and `println` are left out. They only write to the log.
- `getString` and `getMap` on a missing key return null here. Older React Native versions throw `NoSuchKeyException` instead. The module reads only keys it has checked with `hasKey`, except `colorsConfig?.getMap("android")`, whose missing key is read as null.
- What the SDK does when the `configure` block throws is not visible. The model returns the configuration as the block left it, with the preloading switch possibly set, and never reaches `checkoutConfig = configuration`.
- HexDigits.DigitValue: `Character.digit` also accepts non-ASCII Unicode decimal digits and full-width Latin letters. Only ASCII digits are modelled.
- The Kotlin processor does not override the geolocation prompt. It keeps the SDK default, which is not visible.
- The Java file declares the Kotlin class's fully qualified name a second time. Its enum constructor is also misnamed (`EventType`), so it cannot compile next to the Kotlin file. Its logic is modelled as if both defects were fixed.
