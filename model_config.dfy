/** Model profiles kept one per file in a collection's models directory
    (`ankiops/ai/model_config.py`): every `.yaml`/`.yml` file there holds
    one profile named by its stem, one profile may be marked as the
    default, and a runtime configuration is resolved from a profile, the
    provider registry, overrides and the environment. Which files the
    directory holds is a parameter, the parsed YAML document of a path is
    the function `document`, and pydantic's type checks are the function
    `schema`. */
module ModelConfig {
  import opened Wrappers
  import opened Json
  import Text
  import Seqs
  import Sorting
  import Dicts
  import AiFiles
  import Providers
  import PromptLoader
  import ModelProfiles

  const ModelSchema: string := "ai.model.v1"
  const DefaultTimeoutSeconds: int := 60
  const DefaultMaxInFlight: int := 4

  /** A profile as the loader stores it: the base URL and the key variable
      are overrides of the provider's defaults. */
  datatype Profile = Profile(
    name: string,
    provider: string,
    model: string,
    baseUrlOverride: Option<string>,
    apiKeyEnvOverride: Option<string>,
    timeoutSeconds: int,
    maxInFlight: int)

  datatype ModelsConfig = ModelsConfig(defaultProfile: string, profiles: Dicts.Dict<string, Profile>, sourcePath: string)

  /** A resolved runtime configuration. */
  datatype RuntimeConfig = RuntimeConfig(
    profile: string,
    provider: string,
    transport: string,
    model: string,
    baseUrl: string,
    apiKeyEnv: Option<string>,
    requiresApiKey: bool,
    timeoutSeconds: int,
    maxInFlight: int,
    apiKey: Option<string>)

  // ---------------------------------------------------------------- providers

  /** `_coerce_provider`: the stripped, lower-cased provider, which must be
      registered. */
  function CoerceProvider(value: string): Result<string> {
    var normalized := Text.Lower(Text.Strip(value));
    if normalized == [] then Err("provider must be one of: " + Text.Join(Providers.ProviderIds(), ", "))
    else
      match Providers.GetProviderSpec(normalized)
      case Err(e) => Err(e)
      case Ok(_) => Ok(normalized)
  }

  /** A provider is accepted exactly when its normalised id is
      registered. */
  lemma CoerceProviderAccepts(value: string)
    ensures CoerceProvider(value).Ok? <==> Text.Lower(Text.Strip(value)) != [] && Text.Lower(Text.Strip(value)) in Providers.Registry
  {
    Providers.LookupNormalized(value);
  }

  /** An accepted provider is its normalised id, and the registry's spec
      for it is its entry. */
  lemma CoerceProviderValue(value: string)
    requires CoerceProvider(value).Ok?
    ensures var n := Text.Lower(Text.Strip(value));
      CoerceProvider(value).value == n && n in Providers.Registry
      && Providers.GetProviderSpec(n) == Ok(Providers.Registry[n])
  {
    Providers.LookupNormalized(value);
  }

  // ---------------------------------------------------------------- profile files

  /** `_RawModelProfileFile` as pydantic's type checks leave it; keys that
      may be absent are `Option`s. */
  datatype RawModelFile = RawModelFile(
    schemaName: Option<string>,
    id: Option<string>,
    isDefault: bool,
    provider: string,
    model: string,
    baseUrl: Option<string>,
    apiKeyEnv: Option<string>,
    timeoutSeconds: Option<int>,
    maxInFlight: Option<int>)

  /** `_RawModelProfileFile` after its validators. */
  datatype ParsedModelFile = ParsedModelFile(
    id: Option<string>,
    isDefault: bool,
    provider: string,
    model: string,
    baseUrl: Option<string>,
    apiKeyEnv: Option<string>,
    timeoutSeconds: int,
    maxInFlight: int)

  /** A positive integer field with a default (pydantic's `gt=0`). */
  function PositiveField(loc: string, value: Option<int>, default: int): (r: AiFiles.Schema<int>)
    ensures r.Typed? <==> value.None? || value.value > 0
    ensures r.Typed? ==> r.raw == value.GetOr(default)
    ensures r.Untyped? ==> r.error == AiFiles.FieldError(loc, "Input should be greater than 0")
  {
    if value.Some? && value.value <= 0 then AiFiles.Untyped(AiFiles.FieldError(loc, "Input should be greater than 0"))
    else AiFiles.Typed(value.GetOr(default))
  }

  /** The `ValueError` validators of `_RawModelProfileFile`, in field
      order, given the provider its validator accepted. */
  function ValidateModelFile(raw: RawModelFile, provider: string): (r: AiFiles.Schema<ParsedModelFile>)
  {
    var _ :- match raw.schemaName
      case None => AiFiles.Typed(())
      case Some(s) =>
        if Text.Strip(s) == ModelSchema then AiFiles.Typed(())
        else AiFiles.Untyped(AiFiles.ValueError("schema", "must equal 'ai.model.v1'"));
    var id :- PromptLoader.OptionalString("id", raw.id);
    var model :- PromptLoader.NonEmptyString("model", raw.model);
    var baseUrl :- PromptLoader.OptionalString("base_url", raw.baseUrl);
    var apiKeyEnv :- PromptLoader.OptionalString("api_key_env", raw.apiKeyEnv);
    var timeout :- PositiveField("timeout_seconds", raw.timeoutSeconds, DefaultTimeoutSeconds);
    var maxInFlight :- PositiveField("max_in_flight", raw.maxInFlight, DefaultMaxInFlight);
    AiFiles.Typed(ParsedModelFile(id, raw.isDefault, provider, model, baseUrl, apiKeyEnv, timeout, maxInFlight))
  }

  /** What every validated profile file satisfies. */
  predicate WellFormedFile(p: ParsedModelFile) {
    PromptLoader.FilledOpt(p.id) && PromptLoader.Filled(p.model)
    && PromptLoader.FilledOpt(p.baseUrl) && PromptLoader.FilledOpt(p.apiKeyEnv)
    && p.timeoutSeconds > 0 && p.maxInFlight > 0
  }

  /** A validated file is made of the validated parts of the raw one. */
  lemma ValidateModelFileParts(raw: RawModelFile, provider: string)
    requires ValidateModelFile(raw, provider).Typed?
    ensures PromptLoader.OptionalString("id", raw.id).Typed? && PromptLoader.NonEmptyString("model", raw.model).Typed?
    ensures PromptLoader.OptionalString("base_url", raw.baseUrl).Typed?
    ensures PromptLoader.OptionalString("api_key_env", raw.apiKeyEnv).Typed?
    ensures PositiveField("timeout_seconds", raw.timeoutSeconds, DefaultTimeoutSeconds).Typed?
    ensures PositiveField("max_in_flight", raw.maxInFlight, DefaultMaxInFlight).Typed?
    ensures ValidateModelFile(raw, provider).raw == ParsedModelFile(
      PromptLoader.OptionalString("id", raw.id).raw, raw.isDefault, provider,
      PromptLoader.NonEmptyString("model", raw.model).raw,
      PromptLoader.OptionalString("base_url", raw.baseUrl).raw,
      PromptLoader.OptionalString("api_key_env", raw.apiKeyEnv).raw,
      PositiveField("timeout_seconds", raw.timeoutSeconds, DefaultTimeoutSeconds).raw,
      PositiveField("max_in_flight", raw.maxInFlight, DefaultMaxInFlight).raw)
  {
  }

  /** A validated file has filled strings, the stripped model, the given
      provider and marker, and positive limits that default to 60 seconds
      and 4 requests. */
  lemma ValidateModelFileMeans(raw: RawModelFile, provider: string)
    ensures var r := ValidateModelFile(raw, provider);
      r.Typed? ==>
        WellFormedFile(r.raw) && r.raw.provider == provider && r.raw.isDefault == raw.isDefault
        && r.raw.model == Text.Strip(raw.model)
        && r.raw.timeoutSeconds == raw.timeoutSeconds.GetOr(DefaultTimeoutSeconds)
        && r.raw.maxInFlight == raw.maxInFlight.GetOr(DefaultMaxInFlight)
  {
    if ValidateModelFile(raw, provider).Typed? {
      ValidateModelFileParts(raw, provider);
    }
  }

  /** `validate_config_model` on a profile file. The provider validator
      raises the registry's own error, which pydantic does not catch, so it
      is reported as it is, without the file's path; every other failure is
      reported with the path. */
  function ParseModelFile(path: string, mapping: seq<(string, Json)>, schema: seq<(string, Json)> -> AiFiles.Schema<RawModelFile>)
    : (r: Result<ParsedModelFile>)
  {
    match schema(mapping)
    case Untyped(e) => Err(AiFiles.InvalidConfig("model profile", path, e))
    case Typed(raw) =>
      match CoerceProvider(raw.provider)
      case Err(m) => Err(m)
      case Ok(provider) =>
        match ValidateModelFile(raw, provider)
        case Untyped(e) => Err(AiFiles.InvalidConfig("model profile", path, e))
        case Typed(parsed) => Ok(parsed)
  }

  // ---------------------------------------------------------------- loading

  /** The profiles read so far, in file order, and the names of those
      marked as the default. */
  datatype Loaded = Loaded(profiles: Dicts.Dict<string, Profile>, defaults: seq<string>)

  function IdMessage(path: string, id: string): string {
    "Model profile id must match file name stem in '" + path + "' (expected '" + AiFiles.Stem(path) + "', got '" + id + "')"
  }

  function DuplicateMessage(name: string): string {
    "Duplicate model profile id '" + name + "'"
  }

  /** A profile file read and validated. */
  function ReadModelFile(path: string, document: string -> Json,
                         schema: seq<(string, Json)> -> AiFiles.Schema<RawModelFile>)
    : (r: Result<ParsedModelFile>)
  {
    var mapping :- AiFiles.LoadYamlMapping(path, document(path), "Model profile file");
    ParseModelFile(path, mapping, schema)
  }

  /** A validated file added to the profiles: its id must be its stem, and
      a second profile with the same name is refused. */
  function AddProfile(loaded: Loaded, path: string, parsed: ParsedModelFile): (r: Result<Loaded>)
    requires loaded.profiles.Valid()
    ensures r.Ok? ==> r.value.profiles.Valid() && |r.value.profiles.keys| == |loaded.profiles.keys| + 1
  {
    var name := if parsed.id.Some? then parsed.id.value else AiFiles.Stem(path);
    if parsed.id.Some? && parsed.id.value != AiFiles.Stem(path) then Err(IdMessage(path, parsed.id.value))
    else if name in loaded.profiles.items then Err(DuplicateMessage(name))
    else
      var profile := Profile(name, parsed.provider, parsed.model, parsed.baseUrl, parsed.apiKeyEnv,
                             parsed.timeoutSeconds, parsed.maxInFlight);
      Ok(Loaded(Dicts.Put(loaded.profiles, name, profile),
                loaded.defaults + if parsed.isDefault then [name] else []))
  }

  /** What every addition that succeeds adds: a profile named by the
      file's stem, which was not there before, and that name to the
      defaults exactly when the file is so marked; a different id, or a
      stem already taken, is refused. */
  lemma AddProfileMeans(loaded: Loaded, path: string, parsed: ParsedModelFile)
    requires loaded.profiles.Valid()
    ensures var r := AddProfile(loaded, path, parsed);
      (r.Ok? <==> (parsed.id.None? || parsed.id.value == AiFiles.Stem(path)) && AiFiles.Stem(path) !in loaded.profiles.items)
      && (parsed.id.Some? && parsed.id.value != AiFiles.Stem(path) ==> r == Err(IdMessage(path, parsed.id.value)))
      && (r.Ok? ==>
            r.value.profiles.keys == loaded.profiles.keys + [AiFiles.Stem(path)]
            && AiFiles.Stem(path) in r.value.profiles.items
            && r.value.profiles.items
               == loaded.profiles.items[AiFiles.Stem(path) := r.value.profiles.items[AiFiles.Stem(path)]]
            && r.value.profiles.items[AiFiles.Stem(path)].name == AiFiles.Stem(path)
            && r.value.defaults == loaded.defaults + (if parsed.isDefault then [AiFiles.Stem(path)] else []))
  {
  }

  /** One iteration of the loop of `load_model_configs`. */
  function FileStep(loaded: Loaded, path: string, document: string -> Json,
                    schema: seq<(string, Json)> -> AiFiles.Schema<RawModelFile>)
    : (r: Result<Loaded>)
    requires loaded.profiles.Valid()
    ensures r.Ok? ==> r.value.profiles.Valid() && |r.value.profiles.keys| == |loaded.profiles.keys| + 1
  {
    var parsed :- ReadModelFile(path, document, schema);
    AddProfile(loaded, path, parsed)
  }

  /** A step that succeeds is an addition of the file read. */
  lemma FileStepAdds(loaded: Loaded, path: string, document: string -> Json,
                     schema: seq<(string, Json)> -> AiFiles.Schema<RawModelFile>)
    requires loaded.profiles.Valid() && FileStep(loaded, path, document, schema).Ok?
    ensures ReadModelFile(path, document, schema).Ok?
    ensures FileStep(loaded, path, document, schema)
      == AddProfile(loaded, path, ReadModelFile(path, document, schema).value)
  {
  }

  /** The profile files read in order, stopping at the first failure. */
  function FilesSpec(paths: seq<string>, document: string -> Json,
                     schema: seq<(string, Json)> -> AiFiles.Schema<RawModelFile>)
    : (r: Result<Loaded>)
    ensures r.Ok? ==> r.value.profiles.Valid() && |r.value.profiles.keys| == |paths|
    decreases |paths|
  {
    if |paths| == 0 then Ok(Loaded(Dicts.Empty(), []))
    else
      var loaded :- FilesSpec(paths[..|paths| - 1], document, schema);
      FileStep(loaded, paths[|paths| - 1], document, schema)
  }

  /** The stems of some paths, in order. */
  function Stems(paths: seq<string>): (r: seq<string>)
    ensures |r| == |paths| && forall i :: 0 <= i < |paths| ==> r[i] == AiFiles.Stem(paths[i])
  {
    Seqs.Apply(AiFiles.Stem, paths)
  }

  lemma StemsSnoc(paths: seq<string>)
    requires |paths| > 0
    ensures Stems(paths) == Stems(paths[..|paths| - 1]) + [AiFiles.Stem(paths[|paths| - 1])]
  {
    Seqs.ApplySnoc(AiFiles.Stem, paths);
  }

  /** Every profile is filed under its own name, the names are the files'
      stems in file order, and every default is one of them. */
  predicate LoadedFrom(loaded: Loaded, paths: seq<string>) {
    loaded.profiles.keys == Stems(paths)
    && (forall k :: k in loaded.profiles.items ==> loaded.profiles.items[k].name == k)
    && (forall d :: d in loaded.defaults ==> d in loaded.profiles.items)
  }

  lemma {:induction false} FilesSpecMeans(paths: seq<string>, document: string -> Json,
                                          schema: seq<(string, Json)> -> AiFiles.Schema<RawModelFile>)
    ensures var r := FilesSpec(paths, document, schema);
      r.Ok? ==> LoadedFrom(r.value, paths)
    decreases |paths|
  {
    var r := FilesSpec(paths, document, schema);
    if |paths| > 0 && r.Ok? {
      var prefix := paths[..|paths| - 1];
      var last := paths[|paths| - 1];
      FilesSpecMeans(prefix, document, schema);
      var loaded := FilesSpec(prefix, document, schema).value;
      FileStepAdds(loaded, last, document, schema);
      var parsed := ReadModelFile(last, document, schema).value;
      AddProfileMeans(loaded, last, parsed);
      var next := r.value;
      assert next == AddProfile(loaded, last, parsed).value;
      StemsSnoc(paths);
      assert next.profiles.keys == Stems(paths);
      forall k | k in next.profiles.items
        ensures next.profiles.items[k].name == k
      {
        if k != AiFiles.Stem(last) {
          assert k in loaded.profiles.items;
        }
      }
      forall d | d in next.defaults
        ensures d in next.profiles.items
      {
        if d !in loaded.defaults {
          assert d == AiFiles.Stem(last);
        }
      }
    }
  }

  /** Reading one more file is one more step. */
  lemma FilesSpecNext(paths: seq<string>, i: nat, document: string -> Json,
                      schema: seq<(string, Json)> -> AiFiles.Schema<RawModelFile>)
    requires i < |paths| && FilesSpec(paths[..i], document, schema).Ok?
    ensures FilesSpec(paths[..i + 1], document, schema)
      == FileStep(FilesSpec(paths[..i], document, schema).value, paths[i], document, schema)
  {
    assert paths[..i + 1][..i] == paths[..i];
  }

  /** A failing file ends the reading: later files do not change the
      error. */
  lemma {:induction false} FilesErrSticks(paths: seq<string>, k: nat, document: string -> Json,
                                          schema: seq<(string, Json)> -> AiFiles.Schema<RawModelFile>)
    requires k <= |paths| && FilesSpec(paths[..k], document, schema).Err?
    ensures FilesSpec(paths, document, schema) == FilesSpec(paths[..k], document, schema)
    decreases |paths| - k
  {
    if k < |paths| {
      var shorter := paths[..|paths| - 1];
      assert shorter[..k] == paths[..k];
      FilesErrSticks(shorter, k, document, schema);
    } else {
      assert paths[..k] == paths;
    }
  }

  /** The loop of `load_model_configs` over the profile files. */
  method LoadProfileFiles(paths: seq<string>, document: string -> Json,
                          schema: seq<(string, Json)> -> AiFiles.Schema<RawModelFile>)
    returns (r: Result<Loaded>)
    ensures r == FilesSpec(paths, document, schema)
  {
    var loaded := Loaded(Dicts.Empty(), []);
    var i := 0;
    while i < |paths|
      invariant 0 <= i <= |paths|
      invariant FilesSpec(paths[..i], document, schema) == Ok(loaded)
    {
      FilesSpecNext(paths, i, document, schema);
      var next := FileStep(loaded, paths[i], document, schema);
      if next.Err? {
        FilesErrSticks(paths, i + 1, document, schema);
        return next;
      }
      loaded := next.value;
      i := i + 1;
    }
    assert paths[..i] == paths;
    return Ok(loaded);
  }

  /** The regular files of the directory whose suffix is `.yaml` or `.yml`
      in any letter case, in the order given. */
  function YamlFiles(dirFiles: seq<string>): (r: seq<string>)
    ensures forall p :: p in r <==> p in dirFiles && PromptLoader.YamlSuffix(p)
    decreases |dirFiles|
  {
    if |dirFiles| == 0 then []
    else
      var rest := YamlFiles(dirFiles[1..]);
      assert dirFiles == [dirFiles[0]] + dirFiles[1..];
      if PromptLoader.YamlSuffix(dirFiles[0]) then [dirFiles[0]] + rest else rest
  }

  /** The profile files, sorted. */
  function ModelFiles(dirFiles: seq<string>): (r: seq<string>)
    ensures Sorting.SortedStrings(r)
    ensures forall p :: p in r <==> p in dirFiles && PromptLoader.YamlSuffix(p)
  {
    var r := Sorting.SortStrings(YamlFiles(dirFiles));
    assert forall p :: p in r <==> p in multiset(r);
    r
  }

  function NoDirectoryMessage(modelsDir: string): string {
    "Model profile directory not found: " + modelsDir + ". Run 'ankiops init' to eject built-in AI assets."
  }

  function NoFilesMessage(modelsDir: string): string {
    "No model profile YAML files found in: " + modelsDir
  }

  function MultipleDefaultsMessage(defaults: seq<string>): string {
    "Multiple model profiles marked as default: " + Text.Join(defaults, ", ")
  }

  /** What `load_model_configs` answers: the directory must exist and hold
      profile files; at most one profile may be the default, and without
      one the first profile in file order is. */
  function LoadModelConfigsSpec(modelsDir: string, dirExists: bool, dirFiles: seq<string>, document: string -> Json,
                                schema: seq<(string, Json)> -> AiFiles.Schema<RawModelFile>)
    : (r: Result<ModelsConfig>)
  {
    if !dirExists then Err(NoDirectoryMessage(modelsDir))
    else
      var files := ModelFiles(dirFiles);
      if files == [] then Err(NoFilesMessage(modelsDir))
      else
        var loaded :- FilesSpec(files, document, schema);
        if |loaded.defaults| > 1 then Err(MultipleDefaultsMessage(loaded.defaults))
        else
          var default := if |loaded.defaults| == 1 then loaded.defaults[0] else loaded.profiles.keys[0];
          Ok(ModelsConfig(default, loaded.profiles, modelsDir))
  }

  /** `load_model_configs`. */
  method LoadModelConfigs(modelsDir: string, dirExists: bool, dirFiles: seq<string>, document: string -> Json,
                          schema: seq<(string, Json)> -> AiFiles.Schema<RawModelFile>)
    returns (r: Result<ModelsConfig>)
    ensures r == LoadModelConfigsSpec(modelsDir, dirExists, dirFiles, document, schema)
  {
    if !dirExists {
      return Err(NoDirectoryMessage(modelsDir));
    }
    var files := ModelFiles(dirFiles);
    if files == [] {
      return Err(NoFilesMessage(modelsDir));
    }
    var loaded := LoadProfileFiles(files, document, schema);
    if loaded.Err? {
      return Err(loaded.error);
    }
    var defaults := loaded.value.defaults;
    if |defaults| > 1 {
      return Err(MultipleDefaultsMessage(defaults));
    }
    var default := if |defaults| == 1 then defaults[0] else loaded.value.profiles.keys[0];
    r := Ok(ModelsConfig(default, loaded.value.profiles, modelsDir));
  }

  /** A loaded configuration holds one profile per profile file, named by
      the file's stem, in sorted file order; its default is a profile: the
      one marked, or the first. */
  lemma LoadModelConfigsMeans(modelsDir: string, dirExists: bool, dirFiles: seq<string>, document: string -> Json,
                              schema: seq<(string, Json)> -> AiFiles.Schema<RawModelFile>)
    ensures var r := LoadModelConfigsSpec(modelsDir, dirExists, dirFiles, document, schema);
      r.Ok? ==>
        dirExists && ModelFiles(dirFiles) != []
        && r.value.profiles.Valid()
        && r.value.profiles.keys == Stems(ModelFiles(dirFiles))
        && (forall k :: k in r.value.profiles.items ==> r.value.profiles.items[k].name == k)
        && r.value.defaultProfile in r.value.profiles.items
        && FilesSpec(ModelFiles(dirFiles), document, schema).Ok?
        && var defaults := FilesSpec(ModelFiles(dirFiles), document, schema).value.defaults;
        |defaults| <= 1
        && r.value.defaultProfile == (if |defaults| == 1 then defaults[0] else r.value.profiles.keys[0])
  {
    var r := LoadModelConfigsSpec(modelsDir, dirExists, dirFiles, document, schema);
    if r.Ok? {
      FilesSpecMeans(ModelFiles(dirFiles), document, schema);
    }
  }

  /** Two marked profiles are refused, naming them. */
  lemma MultipleDefaultsRefused(modelsDir: string, dirFiles: seq<string>, document: string -> Json,
                                schema: seq<(string, Json)> -> AiFiles.Schema<RawModelFile>)
    requires ModelFiles(dirFiles) != [] && FilesSpec(ModelFiles(dirFiles), document, schema).Ok?
    requires |FilesSpec(ModelFiles(dirFiles), document, schema).value.defaults| > 1
    ensures LoadModelConfigsSpec(modelsDir, true, dirFiles, document, schema)
      == Err(MultipleDefaultsMessage(FilesSpec(ModelFiles(dirFiles), document, schema).value.defaults))
  {
  }

  // ---------------------------------------------------------------- runtime values

  /** `_normalize_runtime_string`: the fallback counts only when the value
      is `None`; a value that is not a string is refused; the string is
      stripped, and a blank one is no value. */
  function NormalizeRuntimeString(raw: Json, fallback: Option<string>, key: string): Result<Option<string>> {
    var value := if raw == JNull then (if fallback.Some? then JStr(fallback.value) else JNull) else raw;
    if value == JNull then Ok(None)
    else if !value.JStr? then Err(key + " must be a string")
    else if Text.IsBlank(value.s) then Ok(None)
    else Ok(Some(Text.Strip(value.s)))
  }

  lemma NormalizeRuntimeStringMeans(raw: Json, fallback: Option<string>, key: string)
    ensures var r := NormalizeRuntimeString(raw, fallback, key);
      (raw != JNull && !raw.JStr? ==> r == Err(key + " must be a string"))
      && (raw.JStr? ==> r == Ok(if Text.IsBlank(raw.s) then None else Some(Text.Strip(raw.s))))
      && (raw == JNull && fallback.None? ==> r == Ok(None))
      && (raw == JNull && fallback.Some? ==>
            r == Ok(if Text.IsBlank(fallback.value) then None else Some(Text.Strip(fallback.value))))
      && (r.Ok? && r.value.Some? ==> PromptLoader.Filled(r.value.value))
  {
    var r := NormalizeRuntimeString(raw, fallback, key);
    if r.Ok? && r.value.Some? {
      var value := if raw == JNull then JStr(fallback.value) else raw;
      PromptLoader.StripFilled(value.s);
    }
  }

  /** `_require_runtime_string`: as above, but no value is an error. */
  function RequireRuntimeString(raw: Json, fallback: Option<string>, key: string): Result<string> {
    var value :- NormalizeRuntimeString(raw, fallback, key);
    if value.None? then Err(key + " must be a non-empty string") else Ok(value.value)
  }

  /** A required value is the normalised one, and must be present. */
  lemma RequireRuntimeStringMeans(raw: Json, fallback: Option<string>, key: string)
    ensures var n := NormalizeRuntimeString(raw, fallback, key);
      var r := RequireRuntimeString(raw, fallback, key);
      (r.Ok? <==> n.Ok? && n.value.Some?)
      && (r.Ok? ==> Some(r.value) == n.value && PromptLoader.Filled(r.value))
      && (n == Ok(None) ==> r == Err(key + " must be a non-empty string"))
  {
    NormalizeRuntimeStringMeans(raw, fallback, key);
  }

  /** `_resolve_positive_int`: the value, or the fallback when it is
      `None`, must be an integer (not a boolean) above 0. */
  function ResolvePositiveInt(raw: Json, fallback: int, key: string): (r: Result<int>)
    ensures var value := if raw == JNull then JNum(fallback) else raw;
      (r.Ok? <==> value.JNum? && value.n > 0)
      && (r.Ok? ==> r.value == value.n)
      && (r.Err? ==> r.error == key + " must be > 0")
  {
    var value := if raw == JNull then JNum(fallback) else raw;
    if value.JNum? && value.n > 0 then Ok(value.n) else Err(key + " must be > 0")
  }

  // ---------------------------------------------------------------- resolution

  /** The overrides `resolve_runtime_config` takes. The profile and the
      provider are strings; the other values are checked for their type, so
      they are kept as they come, `JNull` standing for `None`. */
  datatype ConfigOverrides = ConfigOverrides(
    profile: Option<string>,
    provider: Option<string>,
    model: Json,
    baseUrl: Json,
    apiKeyEnv: Json,
    timeoutSeconds: Json,
    maxInFlight: Json,
    apiKey: Json)

  function KnownMessage(name: string, config: ModelsConfig): string {
    "Unknown model profile '" + name + "'. Known: " + Text.Join(Sorting.SortStrings(config.profiles.keys), ", ")
  }

  /** The name the overrides select: the given profile, or the default
      when none (or "") is given, stripped. */
  function SelectedName(config: ModelsConfig, o: ConfigOverrides): string {
    Text.Strip(ModelProfiles.Or(o.profile, config.defaultProfile))
  }

  /** Whether the provider override moves away from the profile's
      provider. */
  predicate ProviderChanged(o: ConfigOverrides, selectedProvider: string, runtimeProvider: string) {
    o.provider.Some? && runtimeProvider != selectedProvider
  }

  /** The base URL and key variable the overrides fall back to: a changed
      provider takes its own defaults; otherwise the profile's overrides
      come first. */
  function Fallbacks(selected: Profile, changed: bool, spec: Providers.ProviderSpec): (Option<string>, Option<string>) {
    if changed then (Some(spec.defaultBaseUrl), spec.defaultApiKeyEnv)
    else
      (Some(ModelProfiles.Or(selected.baseUrlOverride, spec.defaultBaseUrl)),
       if selected.apiKeyEnvOverride.Some? then selected.apiKeyEnvOverride else spec.defaultApiKeyEnv)
  }

  /** The API key: the override, else the variable the resolved key
      variable names in the environment. */
  function ApiKey(o: ConfigOverrides, apiKeyEnv: Option<string>, env: map<string, string>): Result<Option<string>> {
    var fromEnv := if apiKeyEnv.Some? && apiKeyEnv.value in env then Some(env[apiKeyEnv.value]) else None;
    NormalizeRuntimeString(o.apiKey, fromEnv, "api_key")
  }

  /** The selected profile, its provider, the provider the run uses and
      that provider's registry entry. */
  datatype Selection = Selection(
    name: string,
    selected: Profile,
    selectedProvider: string,
    runtimeProvider: string,
    spec: Providers.ProviderSpec)

  /** The first part of `resolve_runtime_config`: the profile must be
      known, and both its provider and the provider override (when given
      and not "") must be registered. */
  function Select(config: ModelsConfig, o: ConfigOverrides): (r: Result<Selection>)
  {
    var name := SelectedName(config, o);
    if name !in config.profiles.items then Err(KnownMessage(name, config))
    else
      var selected := config.profiles.items[name];
      var selectedProvider :- CoerceProvider(selected.provider);
      var runtimeProvider :- CoerceProvider(ModelProfiles.Or(o.provider, selectedProvider));
      CoerceProviderValue(ModelProfiles.Or(o.provider, selectedProvider));
      var spec := Providers.GetProviderSpec(runtimeProvider).value;
      Ok(Selection(name, selected, selectedProvider, runtimeProvider, spec))
  }

  /** A selection names the known profile the overrides select. */
  lemma SelectProfile(config: ModelsConfig, o: ConfigOverrides)
    requires Select(config, o).Ok?
    ensures var s := Select(config, o).value;
      s.name == SelectedName(config, o) && s.name in config.profiles.items
      && s.selected == config.profiles.items[s.name]
  {
    var name := SelectedName(config, o);
    assert name in config.profiles.items;
    var selected := config.profiles.items[name];
    var p1 := CoerceProvider(selected.provider);
    assert p1.Ok?;
    var p2 := CoerceProvider(ModelProfiles.Or(o.provider, p1.value));
    assert p2.Ok?;
    CoerceProviderValue(ModelProfiles.Or(o.provider, p1.value));
    assert Select(config, o).value == Selection(name, selected, p1.value, p2.value,
                                                Providers.GetProviderSpec(p2.value).value);
  }

  /** A selection holds two registered providers: the profile's, and the
      run's, which is the override when one is given, else the profile's;
      the spec is the run provider's registry entry. */
  lemma SelectProviders(config: ModelsConfig, o: ConfigOverrides)
    requires Select(config, o).Ok?
    ensures var s := Select(config, o).value;
      s.selectedProvider == Text.Lower(Text.Strip(s.selected.provider))
      && s.selectedProvider in Providers.Registry
      && s.runtimeProvider == Text.Lower(Text.Strip(ModelProfiles.Or(o.provider, s.selectedProvider)))
      && s.runtimeProvider in Providers.Registry
      && s.spec == Providers.Registry[s.runtimeProvider]
  {
    var name := SelectedName(config, o);
    var selected := config.profiles.items[name];
    var sp := CoerceProvider(selected.provider);
    assert sp.Ok?;
    CoerceProviderValue(selected.provider);
    var rp := CoerceProvider(ModelProfiles.Or(o.provider, sp.value));
    assert rp.Ok?;
    CoerceProviderValue(ModelProfiles.Or(o.provider, sp.value));
    assert Select(config, o).value
      == Selection(name, selected, sp.value, rp.value, Providers.Registry[rp.value]);
  }

  /** The second part of `resolve_runtime_config`: every value from its
      override, else from its fallback. */
  function ResolveValues(s: Selection, o: ConfigOverrides, env: map<string, string>): (r: Result<RuntimeConfig>)
  {
    var spec := s.spec;
    var fallbacks := Fallbacks(s.selected, ProviderChanged(o, s.selectedProvider, s.runtimeProvider), spec);
    var model := RequireRuntimeString(o.model, Some(s.selected.model), "model");
    var baseUrl := RequireRuntimeString(o.baseUrl, fallbacks.0, "base_url");
    var apiKeyEnv := NormalizeRuntimeString(o.apiKeyEnv, fallbacks.1, "api_key_env");
    var timeout := ResolvePositiveInt(o.timeoutSeconds, s.selected.timeoutSeconds, "timeout");
    var maxInFlight := ResolvePositiveInt(o.maxInFlight, s.selected.maxInFlight, "max_in_flight");
    var apiKey := ApiKey(o, if apiKeyEnv.Ok? then apiKeyEnv.value else None, env);
    // The values are read in this order, and the first error is raised.
    if model.Err? then Err(model.error)
    else if baseUrl.Err? then Err(baseUrl.error)
    else if apiKeyEnv.Err? then Err(apiKeyEnv.error)
    else if timeout.Err? then Err(timeout.error)
    else if maxInFlight.Err? then Err(maxInFlight.error)
    else if apiKey.Err? then Err(apiKey.error)
    else
      Ok(RuntimeConfig(s.name, s.runtimeProvider, spec.transport, model.value, baseUrl.value, apiKeyEnv.value,
                       spec.requiresApiKey, timeout.value, maxInFlight.value, apiKey.value))
  }

  /** `resolve_runtime_config`. */
  function ResolveRuntimeConfig(config: ModelsConfig, o: ConfigOverrides, env: map<string, string>)
    : (r: Result<RuntimeConfig>)
  {
    var s :- Select(config, o);
    ResolveValues(s, o, env)
  }

  /** An unknown profile is refused, listing the known ones in sorted
      order. */
  lemma UnknownProfileRefused(config: ModelsConfig, o: ConfigOverrides, env: map<string, string>)
    requires SelectedName(config, o) !in config.profiles.items
    ensures ResolveRuntimeConfig(config, o, env) == Err(KnownMessage(SelectedName(config, o), config))
  {
  }

  /** A resolved configuration is the selection's profile and provider
      with the provider's transport and key requirement, and every value
      from its override or its fallback. */
  lemma ResolveValuesParts(s: Selection, o: ConfigOverrides, env: map<string, string>)
    requires ResolveValues(s, o, env).Ok?
    ensures var fallbacks := Fallbacks(s.selected, ProviderChanged(o, s.selectedProvider, s.runtimeProvider), s.spec);
      var r := ResolveValues(s, o, env).value;
      r.profile == s.name && r.provider == s.runtimeProvider
      && r.transport == s.spec.transport && r.requiresApiKey == s.spec.requiresApiKey
      && RequireRuntimeString(o.model, Some(s.selected.model), "model") == Ok(r.model)
      && RequireRuntimeString(o.baseUrl, fallbacks.0, "base_url") == Ok(r.baseUrl)
      && NormalizeRuntimeString(o.apiKeyEnv, fallbacks.1, "api_key_env") == Ok(r.apiKeyEnv)
      && ResolvePositiveInt(o.timeoutSeconds, s.selected.timeoutSeconds, "timeout") == Ok(r.timeoutSeconds)
      && ResolvePositiveInt(o.maxInFlight, s.selected.maxInFlight, "max_in_flight") == Ok(r.maxInFlight)
      && ApiKey(o, r.apiKeyEnv, env) == Ok(r.apiKey)
  {
    var fallbacks := Fallbacks(s.selected, ProviderChanged(o, s.selectedProvider, s.runtimeProvider), s.spec);
    var model := RequireRuntimeString(o.model, Some(s.selected.model), "model");
    var baseUrl := RequireRuntimeString(o.baseUrl, fallbacks.0, "base_url");
    var apiKeyEnv := NormalizeRuntimeString(o.apiKeyEnv, fallbacks.1, "api_key_env");
    var timeout := ResolvePositiveInt(o.timeoutSeconds, s.selected.timeoutSeconds, "timeout");
    var maxInFlight := ResolvePositiveInt(o.maxInFlight, s.selected.maxInFlight, "max_in_flight");
    assert model.Ok? && baseUrl.Ok? && apiKeyEnv.Ok? && timeout.Ok? && maxInFlight.Ok?;
    var apiKey := ApiKey(o, apiKeyEnv.value, env);
    assert apiKey.Ok?;
    assert ResolveValues(s, o, env).value
      == RuntimeConfig(s.name, s.runtimeProvider, s.spec.transport, model.value, baseUrl.value, apiKeyEnv.value,
                       s.spec.requiresApiKey, timeout.value, maxInFlight.value, apiKey.value);
  }

  /** A resolved configuration is for the selected profile and a
      registered provider, with that provider's transport and key
      requirement; its limits are positive, and the model and base URL
      are filled. */
  lemma ResolvedProvider(config: ModelsConfig, o: ConfigOverrides, env: map<string, string>)
    ensures var r := ResolveRuntimeConfig(config, o, env);
      r.Ok? ==>
        r.value.profile == SelectedName(config, o) && r.value.profile in config.profiles.items
        && r.value.provider in Providers.Registry
        && r.value.transport == Providers.Registry[r.value.provider].transport
        && r.value.requiresApiKey == Providers.Registry[r.value.provider].requiresApiKey
        && r.value.timeoutSeconds > 0 && r.value.maxInFlight > 0
        && PromptLoader.Filled(r.value.model) && PromptLoader.Filled(r.value.baseUrl)
  {
    var r := ResolveRuntimeConfig(config, o, env);
    if r.Ok? {
      var s := Select(config, o).value;
      SelectProfile(config, o);
      SelectProviders(config, o);
      ResolveValuesParts(s, o, env);
      var fallbacks := Fallbacks(s.selected, ProviderChanged(o, s.selectedProvider, s.runtimeProvider), s.spec);
      RequireRuntimeStringMeans(o.model, Some(s.selected.model), "model");
      RequireRuntimeStringMeans(o.baseUrl, fallbacks.0, "base_url");
    }
  }

  /** Without base URL and key variable overrides, a provider switch takes
      the new provider's defaults; otherwise the profile's own values win
      over the provider's defaults. */
  lemma ResolvedFallbacks(config: ModelsConfig, o: ConfigOverrides, env: map<string, string>)
    requires ResolveRuntimeConfig(config, o, env).Ok? && o.baseUrl == JNull && o.apiKeyEnv == JNull
    ensures Select(config, o).Ok?
    ensures var s := Select(config, o).value;
      var r := ResolveRuntimeConfig(config, o, env).value;
      if o.provider.Some? && s.runtimeProvider != s.selectedProvider then
        r.baseUrl == Text.Strip(s.spec.defaultBaseUrl)
        && r.apiKeyEnv == (if s.spec.defaultApiKeyEnv.None? || Text.IsBlank(s.spec.defaultApiKeyEnv.value) then None
                           else Some(Text.Strip(s.spec.defaultApiKeyEnv.value)))
      else
        r.baseUrl == Text.Strip(ModelProfiles.Or(s.selected.baseUrlOverride, s.spec.defaultBaseUrl))
        && var envName := if s.selected.apiKeyEnvOverride.Some? then s.selected.apiKeyEnvOverride else s.spec.defaultApiKeyEnv;
        r.apiKeyEnv == (if envName.None? || Text.IsBlank(envName.value) then None else Some(Text.Strip(envName.value)))
  {
    var s := Select(config, o).value;
    ResolveValuesParts(s, o, env);
    var fallbacks := Fallbacks(s.selected, ProviderChanged(o, s.selectedProvider, s.runtimeProvider), s.spec);
    RequireRuntimeStringMeans(o.baseUrl, fallbacks.0, "base_url");
    NormalizeRuntimeStringMeans(o.baseUrl, fallbacks.0, "base_url");
    NormalizeRuntimeStringMeans(o.apiKeyEnv, fallbacks.1, "api_key_env");
  }

  /** An API key given as a non-blank string wins; without one the key is
      read from the environment variable the resolved key variable names,
      and there is none when that variable is unset or no variable is
      named. */
  lemma ResolvedApiKey(config: ModelsConfig, o: ConfigOverrides, env: map<string, string>)
    requires ResolveRuntimeConfig(config, o, env).Ok?
    ensures var r := ResolveRuntimeConfig(config, o, env).value;
      (o.apiKey.JStr? && !Text.IsBlank(o.apiKey.s) ==> r.apiKey == Some(Text.Strip(o.apiKey.s)))
      && (o.apiKey == JNull && r.apiKeyEnv.Some? && r.apiKeyEnv.value in env ==>
            r.apiKey == (if Text.IsBlank(env[r.apiKeyEnv.value]) then None else Some(Text.Strip(env[r.apiKeyEnv.value]))))
      && (o.apiKey == JNull && (r.apiKeyEnv.None? || r.apiKeyEnv.value !in env) ==> r.apiKey == None)
  {
    var r := ResolveRuntimeConfig(config, o, env).value;
    ResolveValuesParts(Select(config, o).value, o, env);
    var fromEnv := if r.apiKeyEnv.Some? && r.apiKeyEnv.value in env then Some(env[r.apiKeyEnv.value]) else None;
    NormalizeRuntimeStringMeans(o.apiKey, fromEnv, "api_key");
  }
}
