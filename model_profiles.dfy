/** Collection-scoped model profiles (`ankiops/ai/model_profiles.py`):
    `prompts/models.yaml` names profiles and a default, and a runtime
    configuration is resolved from a profile plus command-line overrides. */
module ModelProfiles {
  import opened Wrappers
  import opened Json
  import Text
  import Dicts
  import Seqs
  import Sorting
  import AiFiles

  const ValidProviders: set<string> := {"local", "remote"}
  const ModelsFileName: string := "models.yaml"
  const DefaultApiKeyEnv: string := "ANKIOPS_AI_API_KEY"
  const DefaultTimeoutSeconds: int := 60
  const DefaultMaxInFlight: int := 4

  datatype ModelProfile = ModelProfile(
    name: string,
    provider: string,
    model: string,
    baseUrl: string,
    apiKeyEnv: string,
    timeoutSeconds: int,
    maxInFlight: int)

  datatype ModelsConfig = ModelsConfig(
    defaultProfile: string,
    profiles: Dicts.Dict<string, ModelProfile>,
    sourcePath: string)

  datatype RuntimeAiConfig = RuntimeAiConfig(
    profile: string,
    provider: string,
    model: string,
    baseUrl: string,
    apiKeyEnv: string,
    timeoutSeconds: int,
    maxInFlight: int,
    apiKey: Option<string>)

  predicate Filled(s: string) {
    s != [] && Text.Strip(s) == s
  }

  /** What `_normalize_profile` guarantees of every profile it returns. */
  predicate WellFormedProfile(p: ModelProfile) {
    p.provider in ValidProviders && Filled(p.model) && Filled(p.baseUrl) && Filled(p.apiKeyEnv)
    && p.timeoutSeconds > 0 && p.maxInFlight > 0
  }

  /** `models_config_path`. */
  function ModelsConfigPath(promptsDir: string): string {
    AiFiles.JoinPath(promptsDir, ModelsFileName)
  }

  /** `int(raw)` for what YAML can hold: an integer, a boolean, or a string
      in Python's integer syntax; `None` where Python raises. */
  function PyInt(raw: Json): Option<int> {
    match raw
    case JNum(n) => Some(n)
    case JBool(b) => Some(if b then 1 else 0)
    case JStr(s) => Text.ParseInt(s)
    case _ => None
  }

  /** `_parse_positive_int`: the parsed value when it is positive, the
      fallback for a missing value, one `int()` refuses, or one that is not
      positive. */
  function ParsePositiveInt(raw: Json, fallback: int): (r: int)
    ensures raw != JNull && PyInt(raw).Some? && PyInt(raw).value > 0 ==> r == PyInt(raw).value
    ensures raw == JNull || PyInt(raw).None? || PyInt(raw).value <= 0 ==> r == fallback
  {
    if raw == JNull then fallback
    else
      match PyInt(raw)
      case None => fallback
      case Some(v) => if v > 0 then v else fallback
  }

  /** A positive number written out in YAML, as digits or as a string of
      digits, is read back unchanged. */
  lemma ParsePositiveIntRoundTrip(n: int, fallback: int)
    requires n > 0
    ensures ParsePositiveInt(JNum(n), fallback) == n
    ensures ParsePositiveInt(JStr(Text.IntToString(n)), fallback) == n
  {
    assert PyInt(JNum(n)) == Some(n);
    var s := Text.IntToString(n);
    Text.ParseIntToString(n);
    assert PyInt(JStr(s)) == Some(n);
  }

  /** `str(raw.get(key, default)).strip()`. */
  function StrippedStr(members: seq<(string, Json)>, key: string, default: string): string {
    Text.Strip(AiFiles.PyStr(Lookup(members, key).GetOr(JStr(default))))
  }

  /** `_normalize_profile`: the profile a `models.yaml` entry describes. */
  function NormalizeProfile(profileName: string, raw: Json, path: string): (r: Result<ModelProfile>)
  {
    if !raw.JObj? then Err("Profile '" + profileName + "' must be a mapping in '" + path + "'")
    else
      var members := raw.members;
      var provider := StrippedStr(members, "provider", "");
      if provider !in ValidProviders then
        Err("Profile '" + profileName + "' provider must be one of: local, remote")
      else
        var model := StrippedStr(members, "model", "");
        var baseUrl := StrippedStr(members, "base_url", "");
        var apiKeyEnv := StrippedStr(members, "api_key_env", DefaultApiKeyEnv);
        if model == [] then Err("Profile '" + profileName + "' requires a non-empty 'model'")
        else if baseUrl == [] then Err("Profile '" + profileName + "' requires a non-empty 'base_url'")
        else
          Ok(ModelProfile(profileName, provider, model, baseUrl,
                          if apiKeyEnv == [] then DefaultApiKeyEnv else apiKeyEnv,
                          ParsePositiveInt(Lookup(members, "timeout_seconds").GetOr(JNull), DefaultTimeoutSeconds),
                          ParsePositiveInt(Lookup(members, "max_in_flight").GetOr(JNull), DefaultMaxInFlight)))
  }

  /** A stripped string is its own strip. */
  lemma StrippedIsFilled(s: string)
    ensures Text.Strip(s) != [] ==> Filled(Text.Strip(s))
  {
    Text.StripCharsIdempotent(s, Text.Whitespace);
  }

  /** A profile is accepted exactly when its provider is one of the valid
      ones and its model and base URL are not blank; what is accepted is
      well formed, and the first failing check names the error. */
  lemma NormalizeProfileMeans(profileName: string, raw: Json, path: string)
    ensures var r := NormalizeProfile(profileName, raw, path);
      (!raw.JObj? ==> r == Err("Profile '" + profileName + "' must be a mapping in '" + path + "'"))
      && (raw.JObj? ==>
        var provider := StrippedStr(raw.members, "provider", "");
        var model := StrippedStr(raw.members, "model", "");
        var baseUrl := StrippedStr(raw.members, "base_url", "");
        (r.Ok? <==> provider in ValidProviders && model != [] && baseUrl != [])
        && (provider !in ValidProviders ==>
              r == Err("Profile '" + profileName + "' provider must be one of: local, remote"))
        && (provider in ValidProviders && model == [] ==>
              r == Err("Profile '" + profileName + "' requires a non-empty 'model'"))
        && (r.Ok? ==> r.value.provider == provider && r.value.model == model && r.value.baseUrl == baseUrl))
  {
  }

  /** What is accepted is well formed and carries the name it was read
      under. */
  lemma NormalizeProfileWellFormed(profileName: string, raw: Json, path: string)
    ensures var r := NormalizeProfile(profileName, raw, path);
      r.Ok? ==> r.value.name == profileName && WellFormedProfile(r.value)
  {
    var r := NormalizeProfile(profileName, raw, path);
    if r.Ok? {
      var members := raw.members;
      StrippedIsFilled(AiFiles.PyStr(Lookup(members, "model").GetOr(JStr(""))));
      StrippedIsFilled(AiFiles.PyStr(Lookup(members, "base_url").GetOr(JStr(""))));
      StrippedIsFilled(AiFiles.PyStr(Lookup(members, "api_key_env").GetOr(JStr(DefaultApiKeyEnv))));
      DefaultEnvFilled();
    }
  }

  lemma DefaultEnvFilled()
    ensures Filled(DefaultApiKeyEnv)
  {
    Text.StripUnchanged(DefaultApiKeyEnv);
  }

  // ------------------------------------------------------------- loading

  /** The key a profile is stored under: the name as written in the file
      (what the source does) or its stripped form (what its default lookup
      expects). */
  datatype KeyRule = RawNames | StrippedNames

  function KeyOf(rule: KeyRule, name: string): string {
    match rule
    case RawNames => name
    case StrippedNames => Text.Strip(name)
  }

  function ProfileNamesMessage(path: string): string {
    "Profile names must be non-empty strings in '" + path + "'"
  }

  /** A profile is well formed, named by the stripped key it is stored
      under, and that key is the one the rule gives. */
  predicate Keyed(rule: KeyRule, k: string, p: ModelProfile) {
    p.name == Text.Strip(k) && p.name != [] && WellFormedProfile(p) && KeyOf(rule, k) == k
  }

  ghost predicate ProfilesKeyed(profiles: Dicts.Dict<string, ModelProfile>, rule: KeyRule) {
    profiles.Valid() && forall k :: k in profiles.items ==> Keyed(rule, k, profiles.items[k])
  }

  /** The key of an entry strips to the entry's stripped name, and is its
      own key. */
  lemma KeyOfStable(rule: KeyRule, name: string)
    ensures Text.Strip(KeyOf(rule, name)) == Text.Strip(name)
    ensures KeyOf(rule, KeyOf(rule, name)) == KeyOf(rule, name)
  {
    Text.StripCharsIdempotent(name, Text.Whitespace);
  }

  /** Storing a profile read from the entry `name` keeps the profiles keyed. */
  lemma PutKeepsKeyed(profiles: Dicts.Dict<string, ModelProfile>, rule: KeyRule, name: string, profile: ModelProfile)
    requires ProfilesKeyed(profiles, rule)
    requires profile.name == Text.Strip(name) && profile.name != [] && WellFormedProfile(profile)
    ensures ProfilesKeyed(Dicts.Put(profiles, KeyOf(rule, name), profile), rule)
    ensures |Dicts.Put(profiles, KeyOf(rule, name), profile).keys| > 0
  {
    KeyOfStable(rule, name);
    Dicts.PutKeeps(profiles, KeyOf(rule, name), profile, (k, p) => Keyed(rule, k, p));
  }

  /** One entry of the `profiles` mapping: its name must not be blank, its
      profile is normalised and stored under its key. */
  function ProfileStep(profiles: Dicts.Dict<string, ModelProfile>, entry: (string, Json), path: string, rule: KeyRule)
    : Result<Dicts.Dict<string, ModelProfile>>
    requires profiles.Valid()
  {
    var (name, raw) := entry;
    if Text.IsBlank(name) then Err(ProfileNamesMessage(path))
    else
      var profile :- NormalizeProfile(Text.Strip(name), raw, path);
      Ok(Dicts.Put(profiles, KeyOf(rule, name), profile))
  }

  lemma StepKeepsKeyed(profiles: Dicts.Dict<string, ModelProfile>, entry: (string, Json), path: string, rule: KeyRule)
    requires ProfilesKeyed(profiles, rule)
    ensures var r := ProfileStep(profiles, entry, path, rule);
      r.Ok? ==> ProfilesKeyed(r.value, rule) && |r.value.keys| > 0
  {
    var (name, raw) := entry;
    if !Text.IsBlank(name) {
      NormalizeProfileWellFormed(Text.Strip(name), raw, path);
      var profile := NormalizeProfile(Text.Strip(name), raw, path);
      if profile.Ok? {
        PutKeepsKeyed(profiles, rule, name, profile.value);
      }
    }
  }

  /** The profiles of the `profiles` mapping, read in order, stopping at the
      first bad entry. */
  function ProfilesSpec(entries: seq<(string, Json)>, path: string, rule: KeyRule)
    : (r: Result<Dicts.Dict<string, ModelProfile>>)
    ensures r.Ok? ==> r.value.Valid()
    decreases |entries|
  {
    if |entries| == 0 then Ok(Dicts.Empty())
    else
      var profiles :- ProfilesSpec(entries[..|entries| - 1], path, rule);
      ProfileStep(profiles, entries[|entries| - 1], path, rule)
  }

  /** Every profile read is well formed and stored under its own key, and
      a non-empty mapping gives at least one profile. */
  lemma {:induction false} ProfilesSpecKeyed(entries: seq<(string, Json)>, path: string, rule: KeyRule)
    ensures var r := ProfilesSpec(entries, path, rule);
      r.Ok? ==> ProfilesKeyed(r.value, rule) && (|entries| > 0 ==> |r.value.keys| > 0)
    decreases |entries|
  {
    if |entries| > 0 {
      var prefix := entries[..|entries| - 1];
      ProfilesSpecKeyed(prefix, path, rule);
      var profiles := ProfilesSpec(prefix, path, rule);
      if profiles.Ok? {
        StepKeepsKeyed(profiles.value, entries[|entries| - 1], path, rule);
      }
    }
  }

  /** Reading one more entry is one more step. */
  lemma ProfilesSpecNext(entries: seq<(string, Json)>, i: nat, path: string, rule: KeyRule)
    requires i < |entries| && ProfilesSpec(entries[..i], path, rule).Ok?
    ensures ProfilesSpec(entries[..i + 1], path, rule)
      == ProfileStep(ProfilesSpec(entries[..i], path, rule).value, entries[i], path, rule)
  {
    Seqs.TakeTake(entries, i + 1, i);
  }

  /** A bad entry ends the reading: later entries do not change the error. */
  lemma {:induction false} ProfilesErrSticks(entries: seq<(string, Json)>, k: nat, path: string, rule: KeyRule)
    requires k <= |entries| && ProfilesSpec(entries[..k], path, rule).Err?
    ensures ProfilesSpec(entries, path, rule) == ProfilesSpec(entries[..k], path, rule)
    decreases |entries| - k
  {
    if k < |entries| {
      var longer := entries[..|entries| - 1];
      assert longer[..k] == entries[..k];
      ProfilesErrSticks(longer, k, path, rule);
    } else {
      assert entries[..k] == entries;
    }
  }

  /** The loop of `load_models_config` over the `profiles` mapping. */
  method NormalizeProfiles(entries: seq<(string, Json)>, path: string, rule: KeyRule)
    returns (r: Result<Dicts.Dict<string, ModelProfile>>)
    ensures r == ProfilesSpec(entries, path, rule)
  {
    var profiles := Dicts.Empty();
    var i := 0;
    while i < |entries|
      invariant 0 <= i <= |entries|
      invariant ProfilesSpec(entries[..i], path, rule) == Ok(profiles)
    {
      ProfilesSpecNext(entries, i, path, rule);
      var next := ProfileStep(profiles, entries[i], path, rule);
      if next.Err? {
        ProfilesErrSticks(entries, i + 1, path, rule);
        return next;
      }
      profiles := next.value;
      i := i + 1;
    }
    Seqs.TakeAll(entries);
    return Ok(profiles);
  }

  function DefaultProfileMessage(path: string): string {
    "Key 'default_profile' must be a non-empty string in '" + path + "'"
  }

  /** The default profile of `load_models_config`: the one the file names,
      else the first profile; stripped, and it must be one of the keys. */
  function ChooseDefault(mapping: seq<(string, Json)>, profiles: Dicts.Dict<string, ModelProfile>, path: string)
    : Result<ModelsConfig>
    requires |profiles.keys| > 0
  {
    var given := Lookup(mapping, "default_profile").GetOr(JNull);
    var chosen := if given == JNull then JStr(profiles.keys[0]) else given;
    if !chosen.JStr? || Text.IsBlank(chosen.s) then Err(DefaultProfileMessage(path))
    else
      var name := Text.Strip(chosen.s);
      if name !in profiles.items then
        Err("default_profile '" + name + "' was not found in profiles in '" + path + "'")
      else Ok(ModelsConfig(name, profiles, path))
  }

  function ProfilesMessage(path: string): string {
    "Key 'profiles' must be a non-empty mapping in '" + path + "'"
  }

  /** The `profiles` member when it is a non-empty mapping. */
  predicate HasProfiles(mapping: seq<(string, Json)>) {
    var raw := Lookup(mapping, "profiles");
    raw.Some? && raw.value.JObj? && |raw.value.members| > 0
  }

  /** What `load_models_config` makes of the file's contents. */
  function ModelsConfigFrom(document: Json, path: string, rule: KeyRule): (r: Result<ModelsConfig>)
  {
    var mapping :- AiFiles.LoadYamlMapping(path, document, "Model profile config");
    if !HasProfiles(mapping) then Err(ProfilesMessage(path))
    else
      var entries := Lookup(mapping, "profiles").value.members;
      var profiles :- ProfilesSpec(entries, path, rule);
      ProfilesSpecKeyed(entries, path, rule);
      ChooseDefault(mapping, profiles, path)
  }

  function NotFoundMessage(path: string): string {
    "Model profile config not found: " + path + ". Run 'ankiops init' to eject built-in AI assets."
  }

  /** `load_models_config` as written: profiles are stored under their raw
      names while the default's name is stripped. */
  function LoadModelsConfigAsWritten(promptsDir: string, files: set<string>, document: string -> Json)
    : Result<ModelsConfig>
  {
    var path := ModelsConfigPath(promptsDir);
    if path !in files then Err(NotFoundMessage(path))
    else ModelsConfigFrom(document(path), path, RawNames)
  }

  /** `load_models_config` with profiles stored under their stripped names,
      the names their `name` field and the default lookup use. */
  function LoadModelsConfigSpec(promptsDir: string, files: set<string>, document: string -> Json)
    : Result<ModelsConfig>
  {
    var path := ModelsConfigPath(promptsDir);
    if path !in files then Err(NotFoundMessage(path))
    else ModelsConfigFrom(document(path), path, StrippedNames)
  }

  method LoadModelsConfig(promptsDir: string, files: set<string>, document: string -> Json)
    returns (r: Result<ModelsConfig>)
    ensures r == LoadModelsConfigSpec(promptsDir, files, document)
  {
    var path := ModelsConfigPath(promptsDir);
    if path !in files {
      return Err(NotFoundMessage(path));
    }
    var loaded := AiFiles.LoadYamlMapping(path, document(path), "Model profile config");
    if loaded.Err? {
      return Err(loaded.error);
    }
    if !HasProfiles(loaded.value) {
      return Err(ProfilesMessage(path));
    }
    var entries := Lookup(loaded.value, "profiles").value.members;
    var profiles := NormalizeProfiles(entries, path, StrippedNames);
    if profiles.Err? {
      return Err(profiles.error);
    }
    ProfilesSpecKeyed(entries, path, StrippedNames);
    r := ChooseDefault(loaded.value, profiles.value, path);
  }

  /** The default chosen is one of the profiles, and the first one when the
      file names none and that first one is stored under its own name. */
  lemma ChooseDefaultMeans(mapping: seq<(string, Json)>, profiles: Dicts.Dict<string, ModelProfile>, path: string)
    requires |profiles.keys| > 0
    ensures var r := ChooseDefault(mapping, profiles, path);
      r.Ok? ==> r.value.profiles == profiles && r.value.defaultProfile in profiles.items && r.value.sourcePath == path
    ensures Lookup(mapping, "default_profile").None? && !Text.IsBlank(profiles.keys[0])
            && Text.Strip(profiles.keys[0]) == profiles.keys[0] && profiles.keys[0] in profiles.items ==>
      ChooseDefault(mapping, profiles, path) == Ok(ModelsConfig(profiles.keys[0], profiles, path))
    ensures Lookup(mapping, "default_profile").None? && !Text.IsBlank(profiles.keys[0])
            && Text.Strip(profiles.keys[0]) !in profiles.items ==>
      ChooseDefault(mapping, profiles, path)
      == Err("default_profile '" + Text.Strip(profiles.keys[0]) + "' was not found in profiles in '" + path + "'")
  {
  }

  /** A loaded configuration has at least one profile, every profile is
      stored under its own name and well formed, and the default is one of
      them. */
  lemma LoadModelsConfigMeans(promptsDir: string, files: set<string>, document: string -> Json)
    ensures var r := LoadModelsConfigSpec(promptsDir, files, document);
      r.Ok? ==>
        r.value.profiles.Valid() && |r.value.profiles.keys| > 0
        && r.value.defaultProfile in r.value.profiles.items
        && (forall k :: k in r.value.profiles.items ==>
              r.value.profiles.items[k].name == k && WellFormedProfile(r.value.profiles.items[k]))
    ensures ModelsConfigPath(promptsDir) !in files ==>
      LoadModelsConfigSpec(promptsDir, files, document) == Err(NotFoundMessage(ModelsConfigPath(promptsDir)))
  {
    var r := LoadModelsConfigSpec(promptsDir, files, document);
    if r.Ok? {
      var path := ModelsConfigPath(promptsDir);
      var mapping := AiFiles.LoadYamlMapping(path, document(path), "Model profile config").value;
      var entries := Lookup(mapping, "profiles").value.members;
      var profiles := ProfilesSpec(entries, path, StrippedNames).value;
      ProfilesSpecKeyed(entries, path, StrippedNames);
      ChooseDefaultMeans(mapping, profiles, path);
      assert r.value.profiles == profiles;
      forall k | k in profiles.items
        ensures profiles.items[k].name == k && WellFormedProfile(profiles.items[k])
      {
        assert Keyed(StrippedNames, k, profiles.items[k]);
      }
    }
  }

  /** A file whose profiles all read well is settled by its default. */
  lemma ModelsConfigFromProfiles(document: Json, path: string, rule: KeyRule)
    requires document.JObj? && HasProfiles(document.members)
    requires ProfilesSpec(Lookup(document.members, "profiles").value.members, path, rule).Ok?
    ensures var profiles := ProfilesSpec(Lookup(document.members, "profiles").value.members, path, rule).value;
      |profiles.keys| > 0
      && ModelsConfigFrom(document, path, rule) == ChooseDefault(document.members, profiles, path)
  {
    ProfilesSpecKeyed(Lookup(document.members, "profiles").value.members, path, rule);
  }

  /** Profiles stored under stripped names: without `default_profile`, the
      default is the first profile listed, and it is always found. */
  lemma DefaultIsFirstProfile(document: Json, path: string)
    requires document.JObj? && Lookup(document.members, "default_profile").None?
    requires HasProfiles(document.members)
    requires ProfilesSpec(Lookup(document.members, "profiles").value.members, path, StrippedNames).Ok?
    ensures var profiles := ProfilesSpec(Lookup(document.members, "profiles").value.members, path, StrippedNames).value;
      |profiles.keys| > 0
      && ModelsConfigFrom(document, path, StrippedNames) == Ok(ModelsConfig(profiles.keys[0], profiles, path))
  {
    var entries := Lookup(document.members, "profiles").value.members;
    var profiles := ProfilesSpec(entries, path, StrippedNames).value;
    ProfilesSpecKeyed(entries, path, StrippedNames);
    var k := profiles.keys[0];
    assert Keyed(StrippedNames, k, profiles.items[k]);
    ModelsConfigFromProfiles(document, path, StrippedNames);
    ChooseDefaultMeans(document.members, profiles, path);
  }

  /** A `profiles` mapping with one good entry gives that one profile. */
  lemma SingleProfile(name: string, raw: Json, path: string, rule: KeyRule)
    requires !Text.IsBlank(name) && NormalizeProfile(Text.Strip(name), raw, path).Ok?
    ensures ProfilesSpec([(name, raw)], path, rule)
      == Ok(Dicts.Put(Dicts.Empty(), KeyOf(rule, name), NormalizeProfile(Text.Strip(name), raw, path).value))
  {
    var entries := [(name, raw)];
    assert entries[..0] == [];
  }

  /** ... and that profile is its only key. */
  lemma SingleProfileKeys(name: string, raw: Json, path: string, rule: KeyRule)
    requires !Text.IsBlank(name) && NormalizeProfile(Text.Strip(name), raw, path).Ok?
    ensures ProfilesSpec([(name, raw)], path, rule).Ok?
    ensures ProfilesSpec([(name, raw)], path, rule).value.keys == [KeyOf(rule, name)]
    ensures ProfilesSpec([(name, raw)], path, rule).value.items.Keys == {KeyOf(rule, name)}
  {
    SingleProfile(name, raw, path, rule);
  }

  /** The loader as written refuses a file whose only profile is named with
      surrounding blanks and that names no default: the default becomes the
      stripped name, which is not a key. */
  lemma PaddedProfileNameRejected(document: Json, path: string, name: string, raw: Json)
    requires document.JObj?
    requires Lookup(document.members, "profiles") == Some(JObj([(name, raw)]))
    requires Lookup(document.members, "default_profile").None?
    requires !Text.IsBlank(name) && Text.Strip(name) != name
    requires NormalizeProfile(Text.Strip(name), raw, path).Ok?
    ensures ModelsConfigFrom(document, path, RawNames)
      == Err("default_profile '" + Text.Strip(name) + "' was not found in profiles in '" + path + "'")
  {
    var entries := Lookup(document.members, "profiles").value.members;
    assert entries == [(name, raw)];
    SingleProfileKeys(name, raw, path, RawNames);
    var profiles := ProfilesSpec(entries, path, RawNames).value;
    ModelsConfigFromProfiles(document, path, RawNames);
    ChooseDefaultMeans(document.members, profiles, path);
  }

  /** Stored under stripped names, the same file loads, with the stripped
      name as its default. */
  lemma PaddedProfileNameLoads(document: Json, path: string, name: string, raw: Json)
    requires document.JObj?
    requires Lookup(document.members, "profiles") == Some(JObj([(name, raw)]))
    requires Lookup(document.members, "default_profile").None?
    requires !Text.IsBlank(name)
    requires NormalizeProfile(Text.Strip(name), raw, path).Ok?
    ensures ModelsConfigFrom(document, path, StrippedNames).Ok?
    ensures ModelsConfigFrom(document, path, StrippedNames).value.defaultProfile == Text.Strip(name)
  {
    var entries := Lookup(document.members, "profiles").value.members;
    assert entries == [(name, raw)];
    SingleProfileKeys(name, raw, path, StrippedNames);
    DefaultIsFirstProfile(document, path);
  }

  // ------------------------------------------------------------ resolving

  /** Overrides from the command line; a missing one is `None`. */
  datatype Overrides = Overrides(
    profile: Option<string>,
    provider: Option<string>,
    model: Option<string>,
    baseUrl: Option<string>,
    apiKeyEnv: Option<string>,
    timeoutSeconds: Option<int>,
    maxInFlight: Option<int>,
    apiKey: Option<string>)

  const NoOverrides := Overrides(None, None, None, None, None, None, None, None)

  /** Python's `value or fallback` on an optional string: an empty string
      falls back too. */
  function Or(value: Option<string>, fallback: string): string {
    if value.Some? && value.value != [] then value.value else fallback
  }

  function KnownProfiles(config: ModelsConfig): string {
    Text.Join(Sorting.SortStrings(config.profiles.keys), ", ")
  }

  /** `resolve_runtime_ai_config`. */
  function ResolveRuntimeAiConfig(config: ModelsConfig, o: Overrides, env: map<string, string>)
    : (r: Result<RuntimeAiConfig>)
  {
    var name := Or(o.profile, config.defaultProfile);
    if name !in config.profiles.items then
      Err("Unknown model profile '" + name + "'. Known: " + KnownProfiles(config))
    else
      var selected := config.profiles.items[name];
      var provider := Or(o.provider, selected.provider);
      if provider !in ValidProviders then Err("provider must be one of: local, remote")
      else
        var model := Text.Strip(Or(o.model, selected.model));
        var baseUrl := Text.Strip(Or(o.baseUrl, selected.baseUrl));
        var keyEnv := Text.Strip(Or(o.apiKeyEnv, selected.apiKeyEnv));
        var timeout := o.timeoutSeconds.GetOr(selected.timeoutSeconds);
        var maxInFlight := o.maxInFlight.GetOr(selected.maxInFlight);
        if model == [] then Err("model must be a non-empty string")
        else if baseUrl == [] then Err("base_url must be a non-empty string")
        else if timeout <= 0 then Err("timeout must be > 0")
        else if maxInFlight <= 0 then Err("max_in_flight must be > 0")
        else
          var apiKeyEnv := if keyEnv == [] then DefaultApiKeyEnv else keyEnv;
          var apiKey := if o.apiKey.Some? && o.apiKey.value != [] then o.apiKey
                        else if apiKeyEnv in env then Some(env[apiKeyEnv]) else None;
          Ok(RuntimeAiConfig(name, provider, model, baseUrl, apiKeyEnv, timeout, maxInFlight, apiKey))
  }

  /** The profile is the override or the default, and must exist; the
      provider must be valid; overrides replace the profile's values unless
      empty; model and base URL must not be blank; a blank key variable is
      the default one; both limits must be positive; an explicit key beats
      the environment. */
  lemma ResolveRuntimeAiConfigMeans(config: ModelsConfig, o: Overrides, env: map<string, string>)
    ensures var r := ResolveRuntimeAiConfig(config, o, env);
      var name := Or(o.profile, config.defaultProfile);
      (name !in config.profiles.items ==>
         r == Err("Unknown model profile '" + name + "'. Known: " + KnownProfiles(config)))
      && (name in config.profiles.items ==>
           var selected := config.profiles.items[name];
           var provider := Or(o.provider, selected.provider);
           var model := Text.Strip(Or(o.model, selected.model));
           var baseUrl := Text.Strip(Or(o.baseUrl, selected.baseUrl));
           var keyEnv := Text.Strip(Or(o.apiKeyEnv, selected.apiKeyEnv));
           var timeout := o.timeoutSeconds.GetOr(selected.timeoutSeconds);
           var maxInFlight := o.maxInFlight.GetOr(selected.maxInFlight);
           (r.Ok? <==> provider in ValidProviders && model != [] && baseUrl != [] && timeout > 0 && maxInFlight > 0)
           && (provider !in ValidProviders ==> r == Err("provider must be one of: local, remote"))
           && (r.Ok? ==>
                 r.value.profile == name && r.value.provider == provider
                 && r.value.model == model && r.value.baseUrl == baseUrl
                 && r.value.apiKeyEnv == (if keyEnv == [] then DefaultApiKeyEnv else keyEnv)
                 && r.value.timeoutSeconds == timeout && r.value.maxInFlight == maxInFlight
                 && r.value.apiKey ==
                      (if o.apiKey.Some? && o.apiKey.value != [] then o.apiKey
                       else if r.value.apiKeyEnv in env then Some(env[r.value.apiKeyEnv]) else None)))
    ensures var r := ResolveRuntimeAiConfig(config, o, env);
      r.Ok? ==> Filled(r.value.model) && Filled(r.value.baseUrl) && Filled(r.value.apiKeyEnv)
                && r.value.timeoutSeconds > 0 && r.value.maxInFlight > 0
  {
    var r := ResolveRuntimeAiConfig(config, o, env);
    if r.Ok? {
      var selected := config.profiles.items[r.value.profile];
      StrippedIsFilled(Or(o.model, selected.model));
      StrippedIsFilled(Or(o.baseUrl, selected.baseUrl));
      StrippedIsFilled(Or(o.apiKeyEnv, selected.apiKeyEnv));
      DefaultEnvFilled();
    }
  }

  /** Without overrides the default profile's own values are resolved,
      stripped, and the key variable falls back when blank. */
  lemma ResolveDefaultProfile(config: ModelsConfig, env: map<string, string>)
    requires config.defaultProfile in config.profiles.items
    requires var p := config.profiles.items[config.defaultProfile];
      p.provider in ValidProviders && p.timeoutSeconds > 0 && p.maxInFlight > 0
    ensures var p := config.profiles.items[config.defaultProfile];
      var model := Text.Strip(p.model);
      var baseUrl := Text.Strip(p.baseUrl);
      var keyEnv := Text.Strip(p.apiKeyEnv);
      var apiKeyEnv := if keyEnv == [] then DefaultApiKeyEnv else keyEnv;
      ResolveRuntimeAiConfig(config, NoOverrides, env)
      == if model == [] then Err("model must be a non-empty string")
         else if baseUrl == [] then Err("base_url must be a non-empty string")
         else Ok(RuntimeAiConfig(config.defaultProfile, p.provider, model, baseUrl, apiKeyEnv,
                                 p.timeoutSeconds, p.maxInFlight,
                                 if apiKeyEnv in env then Some(env[apiKeyEnv]) else None))
  {
  }

  /** A well-formed default profile resolves, without overrides, to exactly
      its own values. */
  lemma ResolveWithoutOverrides(config: ModelsConfig, env: map<string, string>)
    requires config.defaultProfile in config.profiles.items
    requires WellFormedProfile(config.profiles.items[config.defaultProfile])
    ensures var p := config.profiles.items[config.defaultProfile];
      ResolveRuntimeAiConfig(config, NoOverrides, env)
      == Ok(RuntimeAiConfig(config.defaultProfile, p.provider, p.model, p.baseUrl, p.apiKeyEnv,
                            p.timeoutSeconds, p.maxInFlight,
                            if p.apiKeyEnv in env then Some(env[p.apiKeyEnv]) else None))
  {
    ResolveDefaultProfile(config, env);
    var p := config.profiles.items[config.defaultProfile];
    assert Text.Strip(p.model) == p.model != [];
    assert Text.Strip(p.baseUrl) == p.baseUrl != [];
    assert Text.Strip(p.apiKeyEnv) == p.apiKeyEnv != [];
  }
}
