/**
 * The three release-phase hooks of src/index.ts: `verifyConditions`,
 * `prepare` and `publish`, with their I/O taken out.
 *
 * The file system is a map from resolved path to file text. The host's
 * `process.cwd()`, the `path` helpers and `JSON.parse`/`JSON.stringify` are
 * fields of an `Env` value, so that nothing here depends on how they work.
 * Every exception a hook throws becomes an `Error` variant.
 */
module Release {
  import opened Wrappers
  import opened Formatting

  type Path = string

  /** A parsed JSON value; objects are maps from key to value. */
  datatype Json =
    | JNull
    | JBool(b: bool)
    | JNumber(n: int)
    | JString(s: string)
    | JArray(items: seq<Json>)
    | JObject(fields: map<string, Json>)

  /** The plugin configuration once it has passed the schema check. */
  datatype Config = Config(manifestPath: string)

  datatype Error =
    | ConfigInvalid          // 'Invalid config'
    | HacsManifestMissing    // 'hacs.json not found'
    | HaManifestMissing      // 'Home Assistant manifest not found'
    | HaManifestUnparseable  // 'Could not parse Home Assistant manifest'
    | HacsFilenameMissing    // 'No filename set in hacs.json'
    | HacsNameMissing        // 'No name set in hacs.json'
    | ReadFailed(path: Path) // `fs.readFile` rejected, propagated as it is
    | SyntaxError            // `JSON.parse` threw, propagated as it is
    | TypeError              // a property or path operation on a value of the wrong kind

  datatype Result<+T> = Ok(value: T) | Err(error: Error)

  datatype Outcome = Pass | Fail(error: Error)

  /** The collaborators the hooks call but do not implement. `parse` is
      partial (`None` where `JSON.parse` throws); `stringify` receives the
      indentation token as its `space` argument. */
  datatype Env = Env(
    cwd: Path,
    resolve: (Path, Path) -> Path,
    join: (Path, Path) -> Path,
    dirname: Path -> Path,
    parse: string -> Option<Json>,
    stringify: (Json, Indent) -> string)

  /** The file system: resolved path to file text. `prepare` overwrites one entry. */
  class FileSystem {
    var files: map<Path, string>

    constructor (files: map<Path, string>)
      ensures this.files == files
    {
      this.files := files;
    }
  }

  function HacsManifestPath(env: Env): Path {
    env.resolve(env.cwd, "hacs.json")
  }

  function HaManifestPath(env: Env, config: Config): Path {
    env.resolve(env.cwd, config.manifestPath)
  }

  /** `JSON.parse(await fs.readFile(p))`, neither call guarded. */
  function ReadJson(env: Env, files: map<Path, string>, p: Path): (r: Result<Json>)
    ensures p !in files ==> r == Err(ReadFailed(p))
    ensures p in files ==> (r.Ok? <==> env.parse(files[p]).Some?)
    ensures p in files && r.Ok? ==> env.parse(files[p]) == Some(r.value)
    ensures p in files && env.parse(files[p]).None? ==> r == Err(SyntaxError)
  {
    if p !in files then Err(ReadFailed(p))
    else match env.parse(files[p])
      case None => Err(SyntaxError)
      case Some(v) => Ok(v)
  }

  /** `configSchema`: an object whose `manifestPath` is a non-empty string;
      other keys are ignored. */
  function CheckConfig(pluginConfig: Json): (r: Result<Config>)
    ensures r.Ok? ==> pluginConfig.JObject? && "manifestPath" in pluginConfig.fields
    ensures r.Ok? ==> pluginConfig.fields["manifestPath"] == JString(r.value.manifestPath)
    ensures r.Ok? ==> r.value.manifestPath != []
    ensures r.Err? ==> r.error == ConfigInvalid
    ensures (pluginConfig.JObject? && "manifestPath" in pluginConfig.fields
             && pluginConfig.fields["manifestPath"].JString?
             && pluginConfig.fields["manifestPath"].s != []) ==> r.Ok?
  {
    match pluginConfig
    case JObject(fields) =>
      if "manifestPath" in fields && fields["manifestPath"].JString? && fields["manifestPath"].s != []
      then Ok(Config(fields["manifestPath"].s))
      else Err(ConfigInvalid)
    case _ => Err(ConfigInvalid)
  }

  /** `verifyConditions`: config, then `hacs.json`, then the Home Assistant
      manifest's presence, then whether it parses; the first failure is the
      one reported. It takes the files by value, so it changes none. */
  function VerifyConditions(env: Env, files: map<Path, string>, pluginConfig: Json): (r: Outcome)
    ensures CheckConfig(pluginConfig).Err? ==> r == Fail(ConfigInvalid)
    ensures CheckConfig(pluginConfig).Ok? && HacsManifestPath(env) !in files ==>
      r == Fail(HacsManifestMissing)
    ensures (CheckConfig(pluginConfig).Ok? && HacsManifestPath(env) in files
             && HaManifestPath(env, CheckConfig(pluginConfig).value) !in files) ==>
      r == Fail(HaManifestMissing)
    ensures (CheckConfig(pluginConfig).Ok? && HacsManifestPath(env) in files
             && HaManifestPath(env, CheckConfig(pluginConfig).value) in files
             && env.parse(files[HaManifestPath(env, CheckConfig(pluginConfig).value)]).None?) ==>
      r == Fail(HaManifestUnparseable)
    ensures r == Pass <==>
      && CheckConfig(pluginConfig).Ok?
      && HacsManifestPath(env) in files
      && HaManifestPath(env, CheckConfig(pluginConfig).value) in files
      && env.parse(files[HaManifestPath(env, CheckConfig(pluginConfig).value)]).Some?
    ensures r.Fail? ==> r.error in {ConfigInvalid, HacsManifestMissing, HaManifestMissing, HaManifestUnparseable}
  {
    match CheckConfig(pluginConfig)
    case Err(e) => Fail(e)
    case Ok(config) =>
      var haPath := HaManifestPath(env, config);
      if HacsManifestPath(env) !in files then Fail(HacsManifestMissing)
      else if haPath !in files then Fail(HaManifestMissing)
      else if env.parse(files[haPath]).None? then Fail(HaManifestUnparseable)
      else Pass
  }

  /** An invalid configuration is reported before any file is looked at. */
  lemma InvalidConfigIgnoresFiles(env: Env, files: map<Path, string>, files': map<Path, string>, pluginConfig: Json)
    requires CheckConfig(pluginConfig).Err?
    ensures VerifyConditions(env, files, pluginConfig) == VerifyConditions(env, files', pluginConfig)
  {
  }

  /** The parsed manifest after `content.version = version` as
      `JSON.stringify` sees it: an object has `version` set (added when
      missing) and every other key unchanged; an array keeps the property
      outside its elements, where serialisation never looks. */
  predicate OnlyVersionChanged(before: Json, after: Json, version: string) {
    && (before.JObject? ==>
          && after.JObject?
          && after.fields.Keys == before.fields.Keys + {"version"}
          && after.fields["version"] == JString(version)
          && forall k :: k in before.fields && k != "version" ==> after.fields[k] == before.fields[k])
    && (before.JArray? ==> after == before)
  }

  /** `content.version = version` in strict mode: it throws on null and on
      the primitives. */
  function SetVersion(content: Json, version: string): (r: Result<Json>)
    ensures r.Ok? <==> content.JObject? || content.JArray?
    ensures r.Ok? ==> OnlyVersionChanged(content, r.value, version)
    ensures r.Err? ==> r.error == TypeError
  {
    match content
    case JObject(fields) => Ok(JObject(fields["version" := JString(version)]))
    case JArray(_) => Ok(content)
    case _ => Err(TypeError)
  }

  /** What `prepare` writes back: the updated content and the `space`
      argument it is serialised with. */
  datatype Rewrite = Rewrite(content: Json, indent: Indent)

  /** The specification of `prepare`: the rewrite it performs or the error it
      throws. The indent is detected on the text read, before the update. */
  function PrepareRewrite(env: Env, files: map<Path, string>, config: Config, version: string): (r: Result<Rewrite>)
    ensures var p := HaManifestPath(env, config);
      && (ReadJson(env, files, p).Err? ==> r == Err(ReadJson(env, files, p).error))
      && (ReadJson(env, files, p).Ok? ==>
            (r.Ok? <==> ReadJson(env, files, p).value.JObject? || ReadJson(env, files, p).value.JArray?))
      && (r.Ok? ==> p in files && r.value.indent == DetectJsonFormatting(files[p]))
      && (r.Ok? ==> OnlyVersionChanged(ReadJson(env, files, p).value, r.value.content, version))
      && (r.Err? ==> r.error in {ReadFailed(p), SyntaxError, TypeError})
  {
    var p := HaManifestPath(env, config);
    match ReadJson(env, files, p)
    case Err(e) => Err(e)
    case Ok(content) =>
      match SetVersion(content, version)
      case Err(e) => Err(e)
      case Ok(updated) => Ok(Rewrite(updated, DetectJsonFormatting(files[p])))
  }

  /** `prepare`: read the manifest, set its version, write it back with the
      indentation of the text it read. Only the manifest's path is written,
      and nothing is written when it fails. */
  method Prepare(env: Env, fs: FileSystem, config: Config, version: string) returns (r: Outcome)
    modifies fs
    ensures var p := HaManifestPath(env, config);
      match PrepareRewrite(env, old(fs.files), config, version)
      case Ok(w) => r == Pass && fs.files == old(fs.files)[p := env.stringify(w.content, w.indent)]
      case Err(e) => r == Fail(e) && fs.files == old(fs.files)
  {
    var haManifestPath := env.resolve(env.cwd, config.manifestPath);
    if haManifestPath !in fs.files {
      return Fail(ReadFailed(haManifestPath));
    }
    var text := fs.files[haManifestPath];
    var parsed := env.parse(text);
    if parsed.None? {
      return Fail(SyntaxError);
    }
    var content := parsed.value;
    match content {
      case JObject(fields) =>
        content := JObject(fields["version" := JString(version)]);
      case JArray(_) =>
      case _ =>
        return Fail(TypeError);
    }
    var newContent := env.stringify(content, DetectJsonFormatting(text));
    fs.files := fs.files[haManifestPath := newContent];
    r := Pass;
  }

  /** `JSON.parse` reads back whatever `JSON.stringify` wrote, at any indent. */
  ghost predicate SerialisationRoundTrips(env: Env) {
    forall v, indent :: env.parse(env.stringify(v, indent)) == Some(v)
  }

  /** Reading the prepared manifest back gives the original object with only
      `version` changed. */
  lemma PrepareRoundTrip(env: Env, files: map<Path, string>, config: Config, version: string,
                         fields: map<string, Json>)
    requires SerialisationRoundTrips(env)
    requires ReadJson(env, files, HaManifestPath(env, config)) == Ok(JObject(fields))
    ensures PrepareRewrite(env, files, config, version).Ok?
    ensures var w := PrepareRewrite(env, files, config, version).value;
      var text := env.stringify(w.content, w.indent);
      && env.parse(text).Some?
      && env.parse(text).value.JObject?
      && env.parse(text).value.fields == fields["version" := JString(version)]
  {
  }

  /** After a successful verification of the same files, `prepare` can no
      longer fail to read or parse the manifest; only a manifest that is not
      an object or array makes it throw. */
  lemma VerifiedManifestPrepares(env: Env, files: map<Path, string>, pluginConfig: Json, version: string)
    requires VerifyConditions(env, files, pluginConfig) == Pass
    ensures CheckConfig(pluginConfig).Ok?
    ensures var w := PrepareRewrite(env, files, CheckConfig(pluginConfig).value, version);
      w.Ok? || w == Err(TypeError)
  {
  }

  /** What `publish` does when it gets past its checks. */
  datatype PublishAction =
    | Skipped                                 // no `zip_release` key: nothing is built
    | Archive(target: Path, sourceDir: Path)  // zip the contents of `sourceDir` into `target`

  /** `key in v` for the keys `publish` tests. None of them is an array
      index, `length` or a prototype property, so an array has none of them. */
  predicate HasKey(v: Json, key: string) {
    v.JObject? && key in v.fields
  }

  /** `publish`: parse `hacs.json` afresh; skip when `zip_release` is absent
      (present but false still builds), otherwise demand `filename` and then
      `name`, and zip the manifest's directory into `<cwd>/<filename>`. */
  function Publish(env: Env, files: map<Path, string>, config: Config): (r: Result<PublishAction>)
    ensures var hacs := ReadJson(env, files, HacsManifestPath(env));
      && (hacs.Err? ==> r == Err(hacs.error))
      && (hacs.Ok? && !(hacs.value.JObject? || hacs.value.JArray?) ==> r == Err(TypeError))
      && (r == Ok(Skipped) <==>
            hacs.Ok? && (hacs.value.JArray? || (hacs.value.JObject? && "zip_release" !in hacs.value.fields)))
      && (r == Err(HacsFilenameMissing) <==>
            hacs.Ok? && HasKey(hacs.value, "zip_release") && !HasKey(hacs.value, "filename"))
      && (r == Err(HacsNameMissing) <==>
            hacs.Ok? && HasKey(hacs.value, "zip_release") && HasKey(hacs.value, "filename")
            && !HasKey(hacs.value, "name"))
      && (r.Ok? && r.value.Archive? ==>
            && hacs.Ok? && HasKey(hacs.value, "zip_release") && HasKey(hacs.value, "filename")
            && HasKey(hacs.value, "name")
            && hacs.value.fields["filename"].JString?
            && r.value.target == env.join(env.cwd, hacs.value.fields["filename"].s)
            && r.value.sourceDir == env.dirname(env.join(env.cwd, config.manifestPath)))
      && (hacs.Ok? && HasKey(hacs.value, "zip_release") && HasKey(hacs.value, "filename")
          && HasKey(hacs.value, "name") ==>
            r == (if hacs.value.fields["filename"].JString?
                  then Ok(Archive(env.join(env.cwd, hacs.value.fields["filename"].s),
                                  env.dirname(env.join(env.cwd, config.manifestPath))))
                  else Err(TypeError)))
  {
    match ReadJson(env, files, HacsManifestPath(env))
    case Err(e) => Err(e)
    case Ok(hacs) =>
      if !(hacs.JObject? || hacs.JArray?) then Err(TypeError)
      else if !HasKey(hacs, "zip_release") then Ok(Skipped)
      else if !HasKey(hacs, "filename") then Err(HacsFilenameMissing)
      else if !HasKey(hacs, "name") then Err(HacsNameMissing)
      else
        var contentDir := env.dirname(env.join(env.cwd, config.manifestPath));
        match hacs.fields["filename"]
        case JString(filename) => Ok(Archive(env.join(env.cwd, filename), contentDir))
        case _ => Err(TypeError)
  }

  /** The gate tests key presence, not truth: any `zip_release` value, even
      `false`, builds the archive once `filename` and `name` are present. */
  lemma AnyZipReleaseArchives(env: Env, files: map<Path, string>, config: Config,
                              fields: map<string, Json>, filename: string)
    requires ReadJson(env, files, HacsManifestPath(env)) == Ok(JObject(fields))
    requires "zip_release" in fields
    requires "name" in fields && "filename" in fields && fields["filename"] == JString(filename)
    ensures Publish(env, files, config)
      == Ok(Archive(env.join(env.cwd, filename), env.dirname(env.join(env.cwd, config.manifestPath))))
  {
  }
}
