/** `setConfig` and `getConfig`: the module's configuration as a record that
    `setConfig` transforms. The SDK keeps one global configuration; here it is
    passed in and returned. */
module SheetConfig {
  import opened Wrappers
  import opened ReadableMaps
  import opened ColorConfig

  /** The part of the SDK's `Configuration` this module reads and writes:
      the preloading switch (`Preloading(enabled)`) and the colour scheme. */
  datatype Configuration = Configuration(preloading: bool, colorScheme: ColorScheme)

  /** What `getConfig` resolves its promise with. The SDK's string id of the
      scheme is not visible, so the scheme is reported by kind. */
  datatype ConfigReport = ConfigReport(preloading: bool, colorScheme: SchemeKind)

  /** A throw out of the `configure` block: the configuration as the block left
      it (the preloading switch may already be set) and the accessor's error.
      The final `checkoutConfig = configuration` is then skipped. */
  datatype SetConfigThrow = SetConfigThrow(partial: Configuration, cause: BridgeError)

  /** `colors.android`, read with two `getMap` calls, the first one only when
      `colors` is present. Either call throws on a value that is not a map or
      null. */
  function AndroidColors(config: ReadableMap): (r: Result<Option<ReadableMap>, BridgeError>)
    ensures r.Failure? <==>
      || !MapOrNull(config, "colors")
      || ("colors" in config && config["colors"].Map? && !MapOrNull(config["colors"].entries, "android"))
    ensures (r.Success? && r.value.Some?) <==>
      && "colors" in config && config["colors"].Map?
      && "android" in config["colors"].entries && config["colors"].entries["android"].Map?
    ensures r.Success? && r.value.Some? ==> config["colors"].entries["android"] == Map(r.value.value)
  {
    var colorsConfig :- if HasKey(config, "colors") then GetMap(config, "colors") else Success(None);
    if colorsConfig.Some? then GetMap(colorsConfig.value, "android") else Success(None)
  }

  /** The scheme `setConfig` stores for scheme name `name`: with palettes when the
      `colors.android` dictionary is a valid colour dictionary AND `getColors`
      accepts it for the scheme, otherwise the bare named scheme. Either check
      may throw. */
  function ConfiguredScheme(name: string, androidConfig: Option<ReadableMap>): (r: Result<ColorScheme, BridgeError>)
    ensures r.Failure? <==>
      || IsValidColorConfig(androidConfig).Failure?
      || (IsValidColorConfig(androidConfig) == Success(true)
          && IsValidColorScheme(GetColorScheme(name), androidConfig).Failure?)
    ensures r.Success? ==> Kind(r.value) == Kind(GetColorScheme(name))
    ensures r.Success? ==> (HasCustomColors(r.value) <==>
      IsValidColorConfig(androidConfig) == Success(true)
      && IsValidColorScheme(GetColorScheme(name), androidConfig) == Success(true))
    ensures r.Success? && !HasCustomColors(r.value) ==> r.value == GetColorScheme(name)
  {
    var colorScheme := GetColorScheme(name);
    var valid :- IsValidColorConfig(androidConfig);
    if valid then
      var withColors :- GetColors(colorScheme, androidConfig.value);
      Success(if withColors.Some? then withColors.value else colorScheme)
    else Success(colorScheme)
  }

  /** The `colorScheme` part of `setConfig`: read the name, then `colors.android`
      (whether or not the name is null), and store the configured scheme when
      there is a name. */
  function SchemeUpdate(config: ReadableMap, currentScheme: ColorScheme): (r: Result<ColorScheme, BridgeError>)
    ensures !StringOrNull(config, "colorScheme") ==> r.Failure?
    ensures r.Success? && "colorScheme" in config && config["colorScheme"].Str? ==>
      Kind(r.value) == Kind(GetColorScheme(config["colorScheme"].s))
    ensures r.Success? && !("colorScheme" in config && config["colorScheme"].Str?) ==> r.value == currentScheme
  {
    var name :- GetString(config, "colorScheme");
    var androidConfig :- AndroidColors(config);
    if name.Some? then ConfiguredScheme(name.value, androidConfig) else Success(currentScheme)
  }

  /** `setConfig`. A throw from an accessor ends the `configure` block: the
      configuration keeps whatever the block set before it, and the colour
      scheme is never set after a throw. */
  function SetConfig(current: Configuration, config: ReadableMap): (r: Result<Configuration, SetConfigThrow>)
    ensures "preloading" in config && !config["preloading"].Bool? ==> r.Failure? && r.error.partial == current
    ensures "colorScheme" !in config ==> (r.Failure? <==> "preloading" in config && !config["preloading"].Bool?)
    ensures r.Failure? ==> r.error.partial.colorScheme == current.colorScheme
    ensures r.Failure? ==>
      r.error.partial.preloading ==
        if "preloading" in config && config["preloading"].Bool? then config["preloading"].b else current.preloading
  {
    var preloading := if HasKey(config, "preloading") then GetBoolean(config, "preloading") else Success(current.preloading);
    if preloading.Failure? then Failure(SetConfigThrow(current, preloading.error))
    else
      var configuration := current.(preloading := preloading.value);
      if !HasKey(config, "colorScheme") then Success(configuration)
      else
        match SchemeUpdate(config, configuration.colorScheme)
        case Failure(e) => Failure(SetConfigThrow(configuration, e))
        case Success(colorScheme) => Success(configuration.(colorScheme := colorScheme))
  }

  /** `getConfig`: the stored preloading switch and the stored scheme. */
  function GetConfig(current: Configuration): (r: ConfigReport)
    ensures r.preloading == current.preloading
    ensures r.colorScheme == Kind(current.colorScheme)
  {
    ConfigReport(current.preloading, Kind(current.colorScheme))
  }

  /** Every value `setConfig` may read has the type it is read as. */
  predicate WellTypedConfig(config: ReadableMap) {
    && ("preloading" in config ==> config["preloading"].Bool?)
    && StringOrNull(config, "colorScheme")
    && MapOrNull(config, "colors")
    && ("colors" in config && config["colors"].Map? ==>
          var colors := config["colors"].entries;
          && MapOrNull(colors, "android")
          && ("android" in colors && colors["android"].Map? ==> WellTypedSchemeConfig(colors["android"].entries)))
  }

  /** A dictionary whose values all have the types `setConfig` reads them as
      never makes it throw. */
  lemma WellTypedConfigSucceeds(current: Configuration, config: ReadableMap)
    requires WellTypedConfig(config)
    ensures SetConfig(current, config).Success?
  {
    if "colors" in config && config["colors"].Map? {
      var colors := config["colors"].entries;
      if "android" in colors && colors["android"].Map? {
        var android := colors["android"].entries;
        SchemeConfigFacts(android);
        if "colorScheme" in config && config["colorScheme"].Str? {
          var scheme := GetColorScheme(config["colorScheme"].s);
          assert IsValidColorScheme(scheme, Some(android)).Success?;
        }
      }
    }
  }

  /** Each accessor that reads a wrongly typed value makes `setConfig` throw,
      once `preloading` has been read: the scheme name, `colors`, `android`,
      and a colour value reached before the first key without a colour. */
  lemma SetConfigThrowSites(current: Configuration, config: ReadableMap)
    requires "preloading" in config ==> config["preloading"].Bool?
    ensures "colorScheme" in config && !StringOrNull(config, "colorScheme") ==>
      SetConfig(current, config).Failure?
    ensures "colorScheme" in config && !MapOrNull(config, "colors") ==>
      SetConfig(current, config).Failure?
    ensures ("colorScheme" in config && "colors" in config && config["colors"].Map?
             && !MapOrNull(config["colors"].entries, "android")) ==>
      SetConfig(current, config).Failure?
    ensures (&& "colorScheme" in config && config["colorScheme"].Str?
             && "colors" in config && config["colors"].Map?
             && "android" in config["colors"].entries && config["colors"].entries["android"].Map?
             && ThrowsBeforeInvalidKey(config["colors"].entries["android"].entries, ColorKeys)) ==>
      SetConfig(current, config).Failure?
  {
  }

  /** The preloading switch changes only when `preloading` is given, and then
      takes the given value. */
  lemma SetConfigPreloading(current: Configuration, config: ReadableMap)
    requires SetConfig(current, config).Success?
    ensures "preloading" !in config ==> SetConfig(current, config).value.preloading == current.preloading
    ensures "preloading" in config ==> Bool(SetConfig(current, config).value.preloading) == config["preloading"]
  {
  }

  /** Without a string under `colorScheme` the scheme is left as it was, whatever
      `colors` holds. */
  lemma SetConfigKeepsScheme(current: Configuration, config: ReadableMap)
    requires SetConfig(current, config).Success?
    requires "colorScheme" !in config || !config["colorScheme"].Str?
    ensures SetConfig(current, config).value.colorScheme == current.colorScheme
  {
  }

  /** With a scheme name, the stored scheme is the named one; it carries palettes
      exactly when `colors.android` passes both checks, and is otherwise bare. */
  lemma SetConfigScheme(current: Configuration, config: ReadableMap, name: string)
    requires SetConfig(current, config).Success?
    requires "colorScheme" in config && config["colorScheme"] == Str(name)
    ensures AndroidColors(config).Success?
    ensures var stored := SetConfig(current, config).value.colorScheme;
      var android := AndroidColors(config).value;
      && Kind(stored) == Kind(GetColorScheme(name))
      && (HasCustomColors(stored) <==>
            IsValidColorConfig(android) == Success(true)
            && IsValidColorScheme(GetColorScheme(name), android) == Success(true))
      && (!HasCustomColors(stored) ==> stored == GetColorScheme(name))
  {
  }

  /** The automatic scheme reads its palettes from the `light` and `dark`
      sub-dictionaries, yet `setConfig` first validates `colors.android` itself:
      without the four top-level colour keys the automatic scheme stays bare,
      however valid `light` and `dark` are. */
  lemma AutomaticNeedsTopLevelColors(current: Configuration, config: ReadableMap, name: string)
    requires "preloading" !in config
    requires "colorScheme" in config && config["colorScheme"] == Str(name)
    requires GetColorScheme(name).Automatic?
    requires AndroidColors(config).Success?
    requires IsValidColorConfig(AndroidColors(config).value) == Success(false)
    ensures SetConfig(current, config) == Success(Configuration(current.preloading, Automatic(None, None)))
  {
  }

  /** Applying the same dictionary twice is the same as applying it once. */
  lemma SetConfigIdempotent(current: Configuration, config: ReadableMap)
    requires SetConfig(current, config).Success?
    ensures SetConfig(SetConfig(current, config).value, config) == SetConfig(current, config)
  {
  }

  /** A `getConfig` after a successful `setConfig` reports the stored switch and
      the kind of the stored scheme. */
  lemma GetConfigAfterSetConfig(current: Configuration, config: ReadableMap)
    requires SetConfig(current, config).Success?
    ensures GetConfig(SetConfig(current, config).value).preloading ==
      if "preloading" in config then config["preloading"].b else current.preloading
    ensures "colorScheme" in config && config["colorScheme"].Str? ==>
      GetConfig(SetConfig(current, config).value).colorScheme ==
        Kind(GetColorScheme(config["colorScheme"].s))
  {
  }
}
