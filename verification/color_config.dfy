/** The colour part of the module's configuration: scheme names, the colour
    dictionaries JavaScript passes under `colors.android`, their validation, and
    the SDK colour objects built from them. */
module ColorConfig {
  import opened Wrappers
  import opened ReadableMaps
  import opened ColorParsing

  /** The SDK's `Colors(webViewBackground, headerBackground, headerFont,
      progressIndicator)`. */
  datatype Colors = Colors(
    webViewBackground: Color,
    headerBackground: Color,
    headerFont: Color,
    progressIndicator: Color)

  /** The SDK's colour schemes. A `None` palette is the scheme's own built-in
      default, which a freshly constructed scheme carries. */
  datatype ColorScheme =
    | Automatic(lightColors: Option<Colors>, darkColors: Option<Colors>)
    | Light(colors: Option<Colors>)
    | Dark(colors: Option<Colors>)
    | Web(colors: Option<Colors>)

  datatype SchemeKind = AutomaticKind | LightKind | DarkKind | WebKind

  function Kind(cs: ColorScheme): SchemeKind {
    match cs
    case Automatic(_, _) => AutomaticKind
    case Light(_) => LightKind
    case Dark(_) => DarkKind
    case Web(_) => WebKind
  }

  /** Every palette of the scheme is the SDK default. */
  predicate IsBare(cs: ColorScheme) {
    match cs
    case Automatic(l, d) => l.None? && d.None?
    case Light(c) => c.None?
    case Dark(c) => c.None?
    case Web(c) => c.None?
  }

  /** Every palette of the scheme has been set from configuration. */
  predicate HasCustomColors(cs: ColorScheme) {
    match cs
    case Automatic(l, d) => l.Some? && d.Some?
    case Light(c) => c.Some?
    case Dark(c) => c.Some?
    case Web(c) => c.Some?
  }

  /** `getColorScheme`: three names are recognised and every other string,
      the empty one included, means the automatic scheme. */
  function GetColorScheme(colorScheme: string): (r: ColorScheme)
    ensures IsBare(r)
    ensures r.Web? <==> colorScheme == "web_default"
    ensures r.Light? <==> colorScheme == "light"
    ensures r.Dark? <==> colorScheme == "dark"
    ensures r.Automatic? <==> colorScheme != "web_default" && colorScheme != "light" && colorScheme != "dark"
  {
    match colorScheme
    case "web_default" => Web(None)
    case "light" => Light(None)
    case "dark" => Dark(None)
    case _ => Automatic(None, None)
  }

  /** Apart from the automatic scheme, the scheme determines the name it came from. */
  lemma GetColorSchemeNamedKinds(a: string, b: string)
    requires Kind(GetColorScheme(a)) == Kind(GetColorScheme(b))
    requires !GetColorScheme(a).Automatic?
    ensures a == b
  {
  }

  const BackgroundColorKey: string := "backgroundColor"
  const ProgressIndicatorKey: string := "progressIndicator"
  const HeaderTextColorKey: string := "headerTextColor"
  const HeaderBackgroundColorKey: string := "headerBackgroundColor"

  /** The four keys a colour dictionary must carry, in the order they are checked. */
  const ColorKeys: seq<string> :=
    [BackgroundColorKey, ProgressIndicatorKey, HeaderTextColorKey, HeaderBackgroundColorKey]

  /** The key holds a string that parses as a colour. */
  predicate HoldsColor(config: ReadableMap, key: string) {
    key in config && config[key].Str? && ParseColor(config[key].s).Some?
  }

  /** The test `isValidColorConfig` applies to each key: `hasKey`, then
      `getString`, which throws on a value that is neither a string nor null. */
  function KeyHoldsColor(config: ReadableMap, key: string): (r: Result<bool, BridgeError>)
    ensures r.Failure? <==> !StringOrNull(config, key)
    ensures r.Success? ==> (r.value <==> HoldsColor(config, key))
  {
    if !HasKey(config, key) then Success(false)
    else
      var s :- GetString(config, key);
      Success(s.Some? && ParseColor(s.value).Some?)
  }

  /** Kotlin's `all` over the keys: it stops at the first key whose test is
      false, so a later key is never read. */
  function AllHoldColors(config: ReadableMap, keys: seq<string>): Result<bool, BridgeError>
    decreases |keys|
  {
    if |keys| == 0 then Success(true)
    else
      var holds :- KeyHoldsColor(config, keys[0]);
      if !holds then Success(false) else AllHoldColors(config, keys[1..])
  }

  /** Reading the keys in order, up to the first one that holds no colour,
      meets a value that is neither a string nor null. */
  predicate ThrowsBeforeInvalidKey(config: ReadableMap, keys: seq<string>) {
    exists i :: 0 <= i < |keys| && !StringOrNull(config, keys[i]) &&
      forall j :: 0 <= j < i ==> HoldsColor(config, keys[j])
  }

  /** `all` holds exactly when every key holds a colour, and throws exactly when
      a value it reaches has the wrong type. */
  lemma {:induction false} AllHoldColorsMeaning(config: ReadableMap, keys: seq<string>)
    ensures AllHoldColors(config, keys).Failure? <==> ThrowsBeforeInvalidKey(config, keys)
    ensures AllHoldColors(config, keys) == Success(true) <==>
      forall i :: 0 <= i < |keys| ==> HoldsColor(config, keys[i])
    decreases |keys|
  {
    if |keys| > 0 {
      var rest := keys[1..];
      AllHoldColorsMeaning(config, rest);
      if ThrowsBeforeInvalidKey(config, keys) && StringOrNull(config, keys[0]) {
        var i :| 0 <= i < |keys| && !StringOrNull(config, keys[i]) &&
          forall j :: 0 <= j < i ==> HoldsColor(config, keys[j]);
        assert i > 0;
        assert HoldsColor(config, keys[0]);
        assert !StringOrNull(config, rest[i - 1]);
        assert forall j :: 0 <= j < i - 1 ==> HoldsColor(config, rest[j]) by {
          forall j | 0 <= j < i - 1 ensures HoldsColor(config, rest[j]) {
            assert rest[j] == keys[j + 1];
          }
        }
      }
      if ThrowsBeforeInvalidKey(config, rest) && HoldsColor(config, keys[0]) {
        var i :| 0 <= i < |rest| && !StringOrNull(config, rest[i]) &&
          forall j :: 0 <= j < i ==> HoldsColor(config, rest[j]);
        assert !StringOrNull(config, keys[i + 1]);
        forall j | 0 <= j < i + 1 ensures HoldsColor(config, keys[j]) {
          if j > 0 {
            assert keys[j] == rest[j - 1];
          }
        }
      }
      if !StringOrNull(config, keys[0]) {
        assert ThrowsBeforeInvalidKey(config, keys);
      }
      if forall i :: 0 <= i < |rest| ==> HoldsColor(config, rest[i]) {
        if HoldsColor(config, keys[0]) {
          forall i | 0 <= i < |keys| ensures HoldsColor(config, keys[i]) {
            if i > 0 {
              assert keys[i] == rest[i - 1];
            }
          }
        }
      }
      if forall i :: 0 <= i < |keys| ==> HoldsColor(config, keys[i]) {
        forall i | 0 <= i < |rest| ensures HoldsColor(config, rest[i]) {
          assert rest[i] == keys[i + 1];
        }
      }
    }
  }

  /** Every colour key of the dictionary holds a colour. */
  predicate AllKeysHoldColors(config: ReadableMap) {
    && HoldsColor(config, BackgroundColorKey)
    && HoldsColor(config, ProgressIndicatorKey)
    && HoldsColor(config, HeaderTextColorKey)
    && HoldsColor(config, HeaderBackgroundColorKey)
  }

  lemma AllColorKeys(config: ReadableMap)
    ensures (forall i :: 0 <= i < |ColorKeys| ==> HoldsColor(config, ColorKeys[i])) <==> AllKeysHoldColors(config)
  {
    assert ColorKeys[0] == BackgroundColorKey && ColorKeys[1] == ProgressIndicatorKey;
    assert ColorKeys[2] == HeaderTextColorKey && ColorKeys[3] == HeaderBackgroundColorKey;
  }

  /** `isValidColorConfig`: valid exactly when all four keys hold colours; it
      throws when, before finding a key without a colour, it reads a value that
      is neither a string nor null. */
  function IsValidColorConfig(config: Option<ReadableMap>): (r: Result<bool, BridgeError>)
    ensures config.None? ==> r == Success(false)
    ensures r == Success(true) <==> config.Some? && AllKeysHoldColors(config.value)
    ensures r.Failure? <==> config.Some? && ThrowsBeforeInvalidKey(config.value, ColorKeys)
  {
    if config.None? then Success(false)
    else
      AllHoldColorsMeaning(config.value, ColorKeys);
      AllColorKeys(config.value);
      AllHoldColors(config.value, ColorKeys)
  }

  /** `parseColorFromConfig`: the colour under `colorKey`, `None` when the key is
      missing, holds `null`, or holds text that is not a colour, and a throw
      when it holds a value of another type. */
  function ParseColorFromConfig(config: ReadableMap, colorKey: string): (r: Result<Option<Color>, BridgeError>)
    ensures r.Failure? <==> !StringOrNull(config, colorKey)
    ensures r.Success? ==> (r.value.Some? <==> HoldsColor(config, colorKey))
    ensures r.Success? && r.value.Some? ==> r.value == ParseColor(config[colorKey].s)
  {
    if HasKey(config, colorKey) then
      var s :- GetString(config, colorKey);
      Success(if s.Some? then ParseColor(s.value) else None)
    else Success(None)
  }

  /** Some colour key holds a value that is neither a string nor null. */
  predicate SomeColorIllTyped(config: ReadableMap) {
    || !StringOrNull(config, BackgroundColorKey)
    || !StringOrNull(config, ProgressIndicatorKey)
    || !StringOrNull(config, HeaderTextColorKey)
    || !StringOrNull(config, HeaderBackgroundColorKey)
  }

  /** `createColorsFromConfig`: it reads all four keys, so it throws exactly
      when one of them holds a value of the wrong type; otherwise it builds a
      palette exactly on valid colour dictionaries, each field the colour under
      its own key. Note the renamings: `backgroundColor` becomes the web view
      background and `headerTextColor` the header font. */
  function CreateColorsFromConfig(config: Option<ReadableMap>): (r: Result<Option<Colors>, BridgeError>)
    ensures config.None? ==> r == Success(None)
    ensures r.Failure? <==> config.Some? && SomeColorIllTyped(config.value)
    ensures (r.Success? && r.value.Some?) <==> IsValidColorConfig(config) == Success(true)
    ensures r.Success? && r.value.Some? ==>
      && r.value.value.webViewBackground == ParseColor(config.value[BackgroundColorKey].s).value
      && r.value.value.headerBackground == ParseColor(config.value[HeaderBackgroundColorKey].s).value
      && r.value.value.headerFont == ParseColor(config.value[HeaderTextColorKey].s).value
      && r.value.value.progressIndicator == ParseColor(config.value[ProgressIndicatorKey].s).value
  {
    if config.None? then Success(None)
    else
      var webViewBackground :- ParseColorFromConfig(config.value, BackgroundColorKey);
      var headerBackground :- ParseColorFromConfig(config.value, HeaderBackgroundColorKey);
      var headerFont :- ParseColorFromConfig(config.value, HeaderTextColorKey);
      var progressIndicator :- ParseColorFromConfig(config.value, ProgressIndicatorKey);
      if webViewBackground.Some? && progressIndicator.Some? && headerFont.Some? && headerBackground.Some? then
        Success(Some(Colors(webViewBackground.value, headerBackground.value, headerFont.value, progressIndicator.value)))
      else Success(None)
  }

  /** `createColorsFromConfig` builds a palette from the dictionary. */
  predicate BuildsColors(config: Option<ReadableMap>) {
    CreateColorsFromConfig(config).Success? && CreateColorsFromConfig(config).value.Some?
  }

  /** `getMap(key)` returns a dictionary that builds a palette. */
  predicate NestedBuildsColors(config: ReadableMap, key: string) {
    GetMap(config, key).Success? && BuildsColors(GetMap(config, key).value)
  }

  /** Every value of a colour dictionary that the module may read as a colour
      string is a string or null. */
  predicate WellTypedColors(config: ReadableMap) {
    !SomeColorIllTyped(config)
  }

  /** A dictionary is valid exactly when it builds a palette. */
  lemma ValidExactlyWhenBuilds(config: Option<ReadableMap>)
    ensures IsValidColorConfig(config) == Success(true) <==> BuildsColors(config)
  {
  }

  /** On a well-typed colour dictionary the validation does not throw. */
  lemma WellTypedColorsValidate(config: ReadableMap)
    requires WellTypedColors(config)
    ensures IsValidColorConfig(Some(config)).Success?
  {
  }

  /** The facts about the top-level, `light` and `dark` dictionaries that
      `isValidColorScheme` relies on. */
  lemma SchemeConfigFacts(config: ReadableMap)
    ensures IsValidColorConfig(Some(config)) == Success(true) <==> BuildsColors(Some(config))
    ensures "light" in config && config["light"].Map? ==>
      (IsValidColorConfig(Some(config["light"].entries)) == Success(true) <==> BuildsColors(Some(config["light"].entries)))
    ensures "dark" in config && config["dark"].Map? ==>
      (IsValidColorConfig(Some(config["dark"].entries)) == Success(true) <==> BuildsColors(Some(config["dark"].entries)))
    ensures WellTypedSchemeConfig(config) ==> IsValidColorConfig(Some(config)).Success?
    ensures WellTypedSchemeConfig(config) && "light" in config && config["light"].Map? ==>
      IsValidColorConfig(Some(config["light"].entries)).Success?
    ensures WellTypedSchemeConfig(config) && "dark" in config && config["dark"].Map? ==>
      IsValidColorConfig(Some(config["dark"].entries)).Success?
  {
    ValidExactlyWhenBuilds(Some(config));
    if "light" in config && config["light"].Map? {
      ValidExactlyWhenBuilds(Some(config["light"].entries));
      if WellTypedSchemeConfig(config) {
        WellTypedColorsValidate(config["light"].entries);
      }
    }
    if "dark" in config && config["dark"].Map? {
      ValidExactlyWhenBuilds(Some(config["dark"].entries));
      if WellTypedSchemeConfig(config) {
        WellTypedColorsValidate(config["dark"].entries);
      }
    }
    if WellTypedSchemeConfig(config) {
      WellTypedColorsValidate(config);
    }
  }

  /** Every value of `colors.android` that the module may read has the type it
      is read as: the four colour keys, and `light` and `dark` with their own
      colour keys. */
  predicate WellTypedSchemeConfig(config: ReadableMap) {
    && WellTypedColors(config)
    && MapOrNull(config, "light") && MapOrNull(config, "dark")
    && ("light" in config && config["light"].Map? ==> WellTypedColors(config["light"].entries))
    && ("dark" in config && config["dark"].Map? ==> WellTypedColors(config["dark"].entries))
  }

  /** `isValidColorScheme`: the automatic scheme needs valid `light` and `dark`
      dictionaries, read only when both keys are present, and `dark` only when
      `light` is valid; every other scheme needs the dictionary itself to be
      valid. Validation is exactly what makes building the palettes succeed. */
  function IsValidColorScheme(colorScheme: ColorScheme, colorConfig: Option<ReadableMap>): (r: Result<bool, BridgeError>)
    ensures colorConfig.None? ==> r == Success(false)
    ensures !colorScheme.Automatic? ==> r == IsValidColorConfig(colorConfig)
    ensures colorConfig.Some? ==>
      (r == Success(true) <==>
        if colorScheme.Automatic? then
          NestedBuildsColors(colorConfig.value, "light") && NestedBuildsColors(colorConfig.value, "dark")
        else BuildsColors(colorConfig))
    ensures colorConfig.Some? && WellTypedSchemeConfig(colorConfig.value) ==> r.Success?
  {
    if colorConfig.None? then Success(false)
    else
      SchemeConfigFacts(colorConfig.value);
      match colorScheme
      case Automatic(_, _) =>
        if !HasKey(colorConfig.value, "light") || !HasKey(colorConfig.value, "dark") then Success(false)
        else
          var light :- GetMap(colorConfig.value, "light");
          var lightValid :- IsValidColorConfig(light);
          if !lightValid then Success(false)
          else
            var dark :- GetMap(colorConfig.value, "dark");
            IsValidColorConfig(dark)
      case _ => IsValidColorConfig(colorConfig)
  }

  /** `setColors` on a Light, Dark or Web scheme. */
  function SetColors(colorScheme: ColorScheme, colors: Colors): (r: ColorScheme)
    requires !colorScheme.Automatic?
    ensures Kind(r) == Kind(colorScheme) && r.colors == Some(colors)
  {
    match colorScheme
    case Light(_) => Light(Some(colors))
    case Dark(_) => Dark(Some(colors))
    case Web(_) => Web(Some(colors))
  }

  /** `getColors`: the scheme with its palettes replaced by those built from the
      dictionary, or `None` when the dictionary does not validate for it. Only
      the validation can throw: once it passes, every value read after it has
      the right type. */
  function GetColors(colorScheme: ColorScheme, config: ReadableMap): (r: Result<Option<ColorScheme>, BridgeError>)
    ensures r.Failure? <==> IsValidColorScheme(colorScheme, Some(config)).Failure?
    ensures (r.Success? && r.value.Some?) <==> IsValidColorScheme(colorScheme, Some(config)) == Success(true)
    ensures r.Success? && r.value.Some? ==>
      Kind(r.value.value) == Kind(colorScheme) && HasCustomColors(r.value.value)
    ensures r.Success? && r.value.Some? && colorScheme.Automatic? ==>
      r.value.value == Automatic(
        CreateColorsFromConfig(GetMap(config, "light").value).value,
        CreateColorsFromConfig(GetMap(config, "dark").value).value)
    ensures r.Success? && r.value.Some? && !colorScheme.Automatic? ==>
      r.value.value.colors == CreateColorsFromConfig(Some(config)).value
  {
    var valid :- IsValidColorScheme(colorScheme, Some(config));
    if !valid then Success(None)
    else if colorScheme.Automatic? then AutomaticColors(config)
    else SingleColors(colorScheme, config)
  }

  /** The automatic arm of `getColors` (its repeated `isValidColorScheme` test
      passes, since the same test has just passed): both palettes from the
      `light` and `dark` dictionaries, or nothing when either fails to build. */
  function AutomaticColors(config: ReadableMap): (r: Result<Option<ColorScheme>, BridgeError>)
    ensures (r.Success? && r.value.Some?) <==>
      NestedBuildsColors(config, "light") && NestedBuildsColors(config, "dark")
    ensures r.Success? && r.value.Some? ==> r.value.value == Automatic(
      CreateColorsFromConfig(GetMap(config, "light").value).value,
      CreateColorsFromConfig(GetMap(config, "dark").value).value)
  {
    var light :- GetMap(config, "light");
    var lightColors :- CreateColorsFromConfig(light);
    var dark :- GetMap(config, "dark");
    var darkColors :- CreateColorsFromConfig(dark);
    if lightColors.Some? && darkColors.Some? then
      Success(Some(Automatic(lightColors, darkColors)))
    else Success(None)
  }

  /** The other arm of `getColors`: one palette from the dictionary itself. */
  function SingleColors(colorScheme: ColorScheme, config: ReadableMap): (r: Result<Option<ColorScheme>, BridgeError>)
    requires !colorScheme.Automatic?
    ensures r.Failure? <==> SomeColorIllTyped(config)
    ensures (r.Success? && r.value.Some?) <==> BuildsColors(Some(config))
    ensures r.Success? && r.value.Some? ==> Kind(r.value.value) == Kind(colorScheme)
    ensures r.Success? && r.value.Some? ==> r.value.value.colors == CreateColorsFromConfig(Some(config)).value
  {
    var colors :- CreateColorsFromConfig(Some(config));
    match colors
    case Some(c) => Success(Some(SetColors(colorScheme, c)))
    case None => Success(None)
  }
}
