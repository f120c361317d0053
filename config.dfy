/** The user configuration file `~/.birdbird/config.json`: loading it with
    a fallback to an empty object, the default location, and the species
    identification settings with their defaults.  Whether the file exists,
    its parsed contents and whether a labels file exists are inputs. */
module Config {
  import opened Prelude
  import opened Text

  /** A parsed JSON value, as `json.load` returns it. */
  datatype Json =
    | JNull
    | JBool(b: bool)
    | JInt(i: int)
    | JFloat(r: real)
    | JStr(s: string)
    | JArray(items: seq<Json>)
    | JObject(fields: map<string, Json>)

  const EmptyObject := JObject(map[])

  /** `obj.get(key, default)`; None where the value is not a dictionary
      and Python raises. */
  function Get(obj: Json, key: string, default: Json): (r: Option<Json>)
    ensures r.Some? <==> obj.JObject?
    ensures r.Some? ==> r.value == if key in obj.fields then obj.fields[key] else default
  {
    if obj.JObject? then Some(if key in obj.fields then obj.fields[key] else default) else None
  }

  /** Python truthiness of a JSON value. */
  predicate Truthy(j: Json) {
    match j
    case JNull => false
    case JBool(b) => b
    case JInt(i) => i != 0
    case JFloat(r) => r != 0.0
    case JStr(s) => s != []
    case JArray(items) => items != []
    case JObject(fields) => fields != map[]
  }

  /** What reading the configuration file gives: it is missing, it fails
      to parse (or to read), or it parses to a value. */
  datatype ConfigFile = Missing | Unreadable | Parsed(value: Json)

  /** `load_config`: the parsed value, or `{}` when the file is missing or
      invalid. */
  function LoadConfig(file: ConfigFile): (r: Json)
    ensures file.Parsed? ==> r == file.value
    ensures !file.Parsed? ==> r == EmptyObject
  {
    if file.Parsed? then file.value else EmptyObject
  }

  // ---------------------------------------------------------------------
  // get_location
  // ---------------------------------------------------------------------

  /** `isinstance(x, (int, float))`, which `bool` passes as a subclass of
      `int`. */
  predicate IsNumber(j: Json) {
    j.JInt? || j.JFloat? || j.JBool?
  }

  /** `float(x)` for a number. */
  function ToReal(j: Json): real
    requires IsNumber(j)
  {
    match j
    case JInt(i) => i as real
    case JFloat(r) => r
    case JBool(b) => if b then 1.0 else 0.0
  }

  datatype Location = Location(lat: Option<real>, lon: Option<real>)

  /** `get_location`; None where a lookup meets a value that is not a
      dictionary.  The location is both coordinates or neither: both
      exactly when the configured `lat` and `lon` are both numbers. */
  function GetLocation(file: ConfigFile): (r: Option<Location>)
    ensures var config := LoadConfig(file);
            var location := if config.JObject? && "location" in config.fields then config.fields["location"] else EmptyObject;
            && (r.None? <==> !config.JObject? || !location.JObject?)
            && (r.Some? ==>
                  var bothNumbers := "lat" in location.fields && "lon" in location.fields &&
                                     IsNumber(location.fields["lat"]) && IsNumber(location.fields["lon"]);
                  && (r.value.lat.Some? <==> bothNumbers)
                  && (r.value.lon.Some? <==> bothNumbers)
                  && (bothNumbers ==> r.value.lat.value == ToReal(location.fields["lat"]) &&
                                      r.value.lon.value == ToReal(location.fields["lon"])))
  {
    var config := LoadConfig(file);
    match Get(config, "location", EmptyObject)
    case None => None
    case Some(location) =>
      match Get(location, "lat", JNull)
      case None => None
      case Some(lat) =>
        var lon := Get(location, "lon", JNull).value;
        if IsNumber(lat) && IsNumber(lon) then Some(Location(Some(ToReal(lat)), Some(ToReal(lon))))
        else Some(Location(None, None))
  }

  // ---------------------------------------------------------------------
  // get_species_config
  // ---------------------------------------------------------------------

  /** `RemoteConfig`; its fields keep whatever JSON values were given. */
  datatype RemoteConfig = RemoteConfig(host: Json, shell: Json, pythonEnv: Json, timeout: Json)

  /** `SpeciesConfig`; `labelsFile` is the expanded path, if any. */
  datatype SpeciesConfig = SpeciesConfig(
    enabled: Json, samplesPerMinute: Json, minConfidence: Json,
    labelsFile: Option<string>, processingMode: Json, remote: Option<RemoteConfig>)

  const DefaultSpeciesConfig := SpeciesConfig(JBool(false), JFloat(6.0), JFloat(0.5), None, JStr("local"), None)

  /** `Path(p).expanduser()` for the forms `~` and `~/...`, given the home
      directory. */
  function ExpandUser(p: string, home: string): string {
    if p == "~" || StartsWith(p, "~/") then home + p[1..] else p
  }

  /** What `get_species_config` makes of the remote section: no remote
      settings, the settings, or an exception (a `TypeError` from `in` or
      from indexing the section). */
  datatype RemoteOutcome = NoRemote | Remote(settings: RemoteConfig) | RemoteRaises

  /** The remote settings, as an option, when they do not raise. */
  function RemoteSettings(o: RemoteOutcome): Option<RemoteConfig> {
    if o.Remote? then Some(o.settings) else None
  }

  /** The remote settings of a `processing` object.  Only a "remote" mode
      looks at the remote section.  An object section gives settings
      exactly when it names a host, with shell, environment and timeout
      defaulting to "bash", "~/bioclip_env" and 300.  `"host" in remote`
      raises for null, booleans and numbers; a string containing "host"
      and a list holding the string "host" pass that test and then raise
      on `remote["host"]`; any other string or list gives no settings. */
  function RemoteOf(processing: map<string, Json>): (r: RemoteOutcome)
    ensures var remote := if "remote" in processing then processing["remote"] else EmptyObject;
            var isRemote := "mode" in processing && processing["mode"] == JStr("remote");
            && (!isRemote ==> r == NoRemote)
            && (r.Remote? <==> isRemote && remote.JObject? && "host" in remote.fields)
            && (r.RemoteRaises? <==>
                  isRemote &&
                  (remote.JNull? || remote.JBool? || remote.JInt? || remote.JFloat? ||
                   (remote.JStr? && Contains(remote.s, "host")) ||
                   (remote.JArray? && JStr("host") in remote.items)))
            && (r.Remote? ==>
                  && r.settings.host == remote.fields["host"]
                  && r.settings.shell == (if "shell" in remote.fields then remote.fields["shell"] else JStr("bash"))
                  && r.settings.pythonEnv == (if "python_env" in remote.fields then remote.fields["python_env"] else JStr("~/bioclip_env"))
                  && r.settings.timeout == (if "timeout" in remote.fields then remote.fields["timeout"] else JInt(300)))
  {
    if !("mode" in processing && processing["mode"] == JStr("remote")) then NoRemote
    else
      var remote := Get(JObject(processing), "remote", EmptyObject).value;
      match remote
      case JObject(fields) =>
        if "host" !in fields then NoRemote
        else
          Remote(RemoteConfig(
            fields["host"],
            Get(remote, "shell", JStr("bash")).value,
            Get(remote, "python_env", JStr("~/bioclip_env")).value,
            Get(remote, "timeout", JInt(300)).value))
      case JStr(s) => if Contains(s, "host") then RemoteRaises else NoRemote
      case JArray(items) => if JStr("host") in items then RemoteRaises else NoRemote
      case _ => RemoteRaises
  }

  /** `get_species_config`; None where Python raises.  Each field is the
      configured value or its default; the labels file is expanded exactly
      when it is truthy, and then it must be a string. */
  function GetSpeciesConfig(file: ConfigFile, home: string): (r: Option<SpeciesConfig>)
    ensures var config := LoadConfig(file);
            var species := if config.JObject? && "species" in config.fields then config.fields["species"] else EmptyObject;
            var processing := if species.JObject? && "processing" in species.fields then species.fields["processing"] else EmptyObject;
            var labels := if species.JObject? && "labels_file" in species.fields then species.fields["labels_file"] else JNull;
            && (r.None? <==>
                  !config.JObject? || !species.JObject? || !processing.JObject? ||
                  RemoteOf(processing.fields).RemoteRaises? || (Truthy(labels) && !labels.JStr?))
            && (r.Some? ==>
                  && r.value.enabled == (if "enabled" in species.fields then species.fields["enabled"] else JBool(false))
                  && r.value.samplesPerMinute == (if "samples_per_minute" in species.fields then species.fields["samples_per_minute"] else JFloat(6.0))
                  && r.value.minConfidence == (if "min_confidence" in species.fields then species.fields["min_confidence"] else JFloat(0.5))
                  && (r.value.labelsFile.Some? <==> Truthy(labels))
                  && (Truthy(labels) ==> r.value.labelsFile.value == ExpandUser(labels.s, home))
                  && r.value.processingMode == (if "mode" in processing.fields then processing.fields["mode"] else JStr("local"))
                  && r.value.remote == RemoteSettings(RemoteOf(processing.fields)))
  {
    var config := LoadConfig(file);
    match Get(config, "species", EmptyObject)
    case None => None
    case Some(species) =>
      match Get(species, "processing", EmptyObject)
      case None => None
      case Some(processing) =>
        if !processing.JObject? then None
        else
          var remote := RemoteOf(processing.fields);
          if remote.RemoteRaises? then None
          else
            var labels := Get(species, "labels_file", JNull).value;
            if Truthy(labels) && !labels.JStr? then None
            else
              Some(SpeciesConfig(
                Get(species, "enabled", JBool(false)).value,
                Get(species, "samples_per_minute", JFloat(6.0)).value,
                Get(species, "min_confidence", JFloat(0.5)).value,
                if Truthy(labels) then Some(ExpandUser(labels.s, home)) else None,
                Get(processing, "mode", JStr("local")).value,
                RemoteSettings(remote)))
  }

  /** A missing, invalid or species-free configuration gives the
      defaults: disabled, 6 samples a minute, confidence 0.5, no labels
      file, mode "local" and no remote settings. */
  lemma SpeciesDefaults(file: ConfigFile, home: string)
    requires !file.Parsed? || (file.value.JObject? && "species" !in file.value.fields)
    ensures GetSpeciesConfig(file, home) == Some(DefaultSpeciesConfig)
  {
  }

  // ---------------------------------------------------------------------
  // SpeciesConfig.get_labels_file
  // ---------------------------------------------------------------------

  /** The bundled labels list, relative to the package directory. */
  function DefaultLabelsFile(packageDir: string): string {
    packageDir + "/data/uk_garden_birds.txt"
  }

  /** `get_labels_file`: the configured file when it is set and exists,
      the bundled list otherwise. */
  function GetLabelsFile(config: SpeciesConfig, fileExists: string -> bool, packageDir: string): (r: string)
    ensures config.labelsFile.Some? && fileExists(config.labelsFile.value) ==> r == config.labelsFile.value
    ensures config.labelsFile.None? || !fileExists(config.labelsFile.value) ==> r == DefaultLabelsFile(packageDir)
  {
    if config.labelsFile.Some? && fileExists(config.labelsFile.value) then config.labelsFile.value
    else DefaultLabelsFile(packageDir)
  }
}
