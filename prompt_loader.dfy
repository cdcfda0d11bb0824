/** Prompt YAML files of a collection (`ankiops/ai/prompt_loader.py`): the
    reference a user gives is resolved against the prompts directory and
    the set of existing files, the file's mapping goes through pydantic's
    type checks (a parameter) and the field validators, and the defaults
    are filled in. */
module PromptLoader {
  import opened Wrappers
  import opened Json
  import Text
  import AiFiles
  import ModelProfiles

  /** A prompt as the rest of the AI code uses it (`ankiops/ai/types.py`);
      the temperature is not modelled. */
  datatype PromptConfig = PromptConfig(
    name: string,
    prompt: string,
    targetFields: seq<string>,
    sendFields: seq<string>,
    noteTypes: seq<string>,
    modelProfile: Option<string>,
    sourcePath: string)

  /** `_RawPromptConfig` as pydantic's type checks leave it: the string
      fields typed, the pattern lists still the raw value their
      `mode="before"` validator receives (absent when the key is). */
  datatype RawPrompt = RawPrompt(
    name: Option<string>,
    description: Option<string>,
    prompt: string,
    targetFields: Option<Json>,
    sendFields: Option<Json>,
    noteTypes: Option<Json>,
    modelProfile: Option<string>)

  /** `_RawPromptConfig` after its validators. */
  datatype ParsedPrompt = ParsedPrompt(
    name: Option<string>,
    description: Option<string>,
    prompt: string,
    targetFields: Option<seq<string>>,
    sendFields: Option<seq<string>>,
    noteTypes: Option<seq<string>>,
    modelProfile: Option<string>)

  predicate Filled(s: string) {
    !Text.IsBlank(s) && Text.Strip(s) == s
  }

  predicate FilledOpt(s: Option<string>) {
    s.Some? ==> Filled(s.value)
  }

  predicate PatternsOpt(ps: Option<seq<string>>) {
    ps.Some? ==> |ps.value| > 0 && forall p :: p in ps.value ==> !Text.IsBlank(p)
  }

  /** What the validators guarantee of every parsed prompt. */
  predicate WellFormed(p: ParsedPrompt) {
    FilledOpt(p.name) && FilledOpt(p.description) && Filled(p.prompt) && FilledOpt(p.modelProfile)
    && PatternsOpt(p.targetFields) && PatternsOpt(p.sendFields) && PatternsOpt(p.noteTypes)
  }

  /** `strip()` leaves nothing to strip. */
  lemma StripFilled(s: string)
    requires !Text.IsBlank(s)
    ensures Filled(Text.Strip(s))
  {
    Text.StripCharsIdempotent(s, Text.Whitespace);
  }

  /** `_normalize_optional_string` and `_normalize_prompt`: a given string
      is stripped and must not be blank. */
  function NonEmptyString(loc: string, value: string): (r: AiFiles.Schema<string>)
    ensures r.Typed? <==> !Text.IsBlank(value)
    ensures r.Typed? ==> r.raw == Text.Strip(value) && Filled(r.raw)
    ensures r.Untyped? ==> r.error == AiFiles.ValueError(loc, "must be a non-empty string")
  {
    if Text.IsBlank(value) then AiFiles.Untyped(AiFiles.ValueError(loc, "must be a non-empty string"))
    else
      StripFilled(value);
      AiFiles.Typed(Text.Strip(value))
  }

  function OptionalString(loc: string, value: Option<string>): (r: AiFiles.Schema<Option<string>>)
    ensures value.None? ==> r == AiFiles.Typed(None)
    ensures value.Some? ==> (r.Typed? <==> !Text.IsBlank(value.value))
    ensures r.Typed? ==> FilledOpt(r.raw) && (value.Some? ==> r.raw == Some(Text.Strip(value.value)))
  {
    match value
    case None => AiFiles.Typed(None)
    case Some(v) =>
      match NonEmptyString(loc, v)
      case Typed(s) => AiFiles.Typed(Some(s))
      case Untyped(e) => AiFiles.Untyped(e)
  }

  /** `_normalize_pattern_list` as a field validator: its message is
      reported under the field's name. */
  function PatternField(loc: string, value: Option<Json>): (r: AiFiles.Schema<Option<seq<string>>>)
    ensures r.Typed? <==> AiFiles.NormalizePatternList(value).Ok?
    ensures r.Typed? ==> r.raw == AiFiles.NormalizePatternList(value).value && PatternsOpt(r.raw)
    ensures r.Untyped? ==> r.error == AiFiles.ValueError(loc, AiFiles.NormalizePatternList(value).error)
  {
    match AiFiles.NormalizePatternList(value)
    case Ok(ps) =>
      assert ps.Some? ==> AiFiles.CleanPatterns(value.value).Patterns?;
      AiFiles.Typed(ps)
    case Err(m) => AiFiles.Untyped(AiFiles.ValueError(loc, m))
  }

  /** The validators of `_RawPromptConfig`, in field order; the first
      failure is the one reported. */
  function ValidatePrompt(raw: RawPrompt): (r: AiFiles.Schema<ParsedPrompt>)
    ensures r.Typed? ==> WellFormed(r.raw)
    ensures r.Typed? ==> r.raw.prompt == Text.Strip(raw.prompt)
    ensures Text.IsBlank(raw.prompt) ==> r.Untyped?
  {
    var name :- OptionalString("name", raw.name);
    var description :- OptionalString("description", raw.description);
    var prompt :- NonEmptyString("prompt", raw.prompt);
    var targetFields :- PatternField("target_fields", raw.targetFields);
    var sendFields :- PatternField("send_fields", raw.sendFields);
    var noteTypes :- PatternField("note_types", raw.noteTypes);
    var modelProfile :- OptionalString("model_profile", raw.modelProfile);
    AiFiles.Typed(ParsedPrompt(name, description, prompt, targetFields, sendFields, noteTypes, modelProfile))
  }

  /** `_require_prompt_ref`. */
  function RequirePromptRef(promptRef: string): (r: Result<string>)
    ensures r.Err? <==> Text.IsBlank(promptRef)
    ensures r.Err? ==> r.error == "Prompt name/path cannot be empty."
    ensures r.Ok? ==> r.value == Text.Strip(promptRef) && Filled(r.value)
  {
    if Text.IsBlank(promptRef) then Err("Prompt name/path cannot be empty.")
    else
      StripFilled(promptRef);
      Ok(Text.Strip(promptRef))
  }

  predicate YamlSuffix(path: string) {
    var suffix := Text.Lower(AiFiles.Suffix(path));
    suffix == ".yaml" || suffix == ".yml"
  }

  function ExtensionMessage(path: string): string {
    "Prompt file must use .yaml or .yml extension: " + path
  }

  function ModelsFileMessage(): string {
    "'" + ModelProfiles.ModelsFileName + "' is model config, not a prompt."
  }

  /** `_assert_is_prompt_file`. */
  function AssertIsPromptFile(path: string): (r: Result<string>)
    ensures r.Ok? <==> YamlSuffix(path) && AiFiles.Name(path) != ModelProfiles.ModelsFileName
    ensures r.Ok? ==> r.value == path
    ensures !YamlSuffix(path) ==> r == Err(ExtensionMessage(path))
    ensures YamlSuffix(path) && !r.Ok? ==> r == Err(ModelsFileMessage())
  {
    if !YamlSuffix(path) then Err(ExtensionMessage(path))
    else if AiFiles.Name(path) == ModelProfiles.ModelsFileName then Err(ModelsFileMessage())
    else Ok(path)
  }

  function NotFoundMessage(promptRef: string, candidates: seq<string>): string {
    "Prompt not found: '" + promptRef + "'. Tried: " + AiFiles.Tried(candidates)
  }

  /** The refusals of `_assert_is_prompt_file` read differently from a
      "Prompt not found" message. */
  lemma PromptFileErrorsDiffer(path: string, promptRef: string, candidates: seq<string>)
    ensures NotFoundMessage(promptRef, candidates) != ExtensionMessage(path)
    ensures NotFoundMessage(promptRef, candidates) != ModelsFileMessage()
  {
    assert NotFoundMessage(promptRef, candidates)[7] == 'n';
    assert ExtensionMessage(path)[7] == 'f';
    assert ModelsFileMessage()[0] == '\'';
  }

  /** `resolve_prompt_path`: the first candidate that exists, checked to be
      a prompt file; when none exists, every candidate is named. */
  function ResolvePromptPath(promptsDir: string, promptRef: string, files: set<string>): (r: Result<string>)
  {
    var raw :- RequirePromptRef(promptRef);
    var candidates :- AiFiles.Candidates(promptsDir, raw);
    match AiFiles.FirstExisting(candidates, files)
    case None => Err(NotFoundMessage(promptRef, candidates))
    case Some(i) => AssertIsPromptFile(candidates[i])
  }

  /** A resolved prompt is the first candidate of the stripped reference
      that exists, and it is a `.yaml`/`.yml` file other than
      `models.yaml`. */
  lemma ResolvePromptPathFound(promptsDir: string, promptRef: string, files: set<string>)
    ensures var r := ResolvePromptPath(promptsDir, promptRef, files);
      r.Ok? ==>
        !Text.IsBlank(promptRef) && AiFiles.Candidates(promptsDir, Text.Strip(promptRef)).Ok?
        && var cs := AiFiles.Candidates(promptsDir, Text.Strip(promptRef)).value;
        AiFiles.FirstExisting(cs, files).Some?
        && r.value == cs[AiFiles.FirstExisting(cs, files).value]
        && r.value in files && YamlSuffix(r.value) && AiFiles.Name(r.value) != ModelProfiles.ModelsFileName
  {
  }

  /** A blank reference is refused. */
  lemma ResolvePromptPathBlank(promptsDir: string, promptRef: string, files: set<string>)
    requires Text.IsBlank(promptRef)
    ensures ResolvePromptPath(promptsDir, promptRef, files) == Err("Prompt name/path cannot be empty.")
  {
  }

  /** For a usable reference, "not found", naming every candidate, is the
      answer exactly when none of the candidates exists. */
  lemma ResolvePromptPathNotFound(promptsDir: string, promptRef: string, files: set<string>)
    requires !Text.IsBlank(promptRef) && AiFiles.Candidates(promptsDir, Text.Strip(promptRef)).Ok?
    ensures var cs := AiFiles.Candidates(promptsDir, Text.Strip(promptRef)).value;
      (forall c :: c in cs ==> c !in files) <==>
      ResolvePromptPath(promptsDir, promptRef, files) == Err(NotFoundMessage(promptRef, cs))
  {
    var cs := AiFiles.Candidates(promptsDir, Text.Strip(promptRef)).value;
    assert RequirePromptRef(promptRef) == Ok(Text.Strip(promptRef));
    var r := ResolvePromptPath(promptsDir, promptRef, files);
    match AiFiles.FirstExisting(cs, files)
    case None =>
      assert r == Err(NotFoundMessage(promptRef, cs));
    case Some(i) =>
      assert cs[i] in cs;
      assert r == AssertIsPromptFile(cs[i]);
      PromptFileErrorsDiffer(cs[i], promptRef, cs);
  }

  /** The defaults `load_prompt` fills in: the name is the file's stem,
      the target fields `["*"]`, the send fields the target fields, the
      note types `["*"]`. */
  function BuildPromptConfig(path: string, parsed: ParsedPrompt): (c: PromptConfig)
    requires WellFormed(parsed)
    ensures c.name == (if parsed.name.Some? then parsed.name.value else AiFiles.Stem(path))
    ensures c.targetFields == (if parsed.targetFields.Some? then parsed.targetFields.value else ["*"])
    ensures c.sendFields == (if parsed.sendFields.Some? then parsed.sendFields.value else c.targetFields)
    ensures c.noteTypes == (if parsed.noteTypes.Some? then parsed.noteTypes.value else ["*"])
    ensures |c.targetFields| > 0 && |c.sendFields| > 0 && |c.noteTypes| > 0
    ensures c.prompt == parsed.prompt && c.modelProfile == parsed.modelProfile && c.sourcePath == path
  {
    var target := parsed.targetFields.GetOr(["*"]);
    PromptConfig(
      parsed.name.GetOr(AiFiles.Stem(path)),
      parsed.prompt,
      target,
      parsed.sendFields.GetOr(target),
      parsed.noteTypes.GetOr(["*"]),
      parsed.modelProfile,
      path)
  }

  /** `load_prompt`: the file a reference resolves to, read as `document`,
      typed by `schema` (pydantic's own checks), validated and defaulted.
      Every failure is reported with the file's path. */
  function LoadPrompt(promptsDir: string, promptRef: string, files: set<string>,
                      document: string -> Json, schema: seq<(string, Json)> -> AiFiles.Schema<RawPrompt>)
    : (r: Result<PromptConfig>)
  {
    var path :- ResolvePromptPath(promptsDir, promptRef, files);
    var mapping :- AiFiles.LoadYamlMapping(path, document(path), "Prompt file");
    match schema(mapping)
    case Untyped(e) => Err(AiFiles.InvalidConfig("prompt", path, e))
    case Typed(raw) =>
      match ValidatePrompt(raw)
      case Untyped(e) => Err(AiFiles.InvalidConfig("prompt", path, e))
      case Typed(parsed) => Ok(BuildPromptConfig(path, parsed))
  }

  /** What every loaded prompt satisfies: a non-blank stripped prompt and
      non-empty lists of non-blank patterns. */
  predicate UsablePrompt(c: PromptConfig) {
    Filled(c.prompt)
    && |c.targetFields| > 0 && |c.sendFields| > 0 && |c.noteTypes| > 0
    && (forall p :: p in c.targetFields ==> !Text.IsBlank(p))
    && (forall p :: p in c.sendFields ==> !Text.IsBlank(p))
    && (forall p :: p in c.noteTypes ==> !Text.IsBlank(p))
  }

  lemma StarNotBlank()
    ensures !Text.IsBlank("*")
  {
    Text.StripUnchanged("*");
  }

  /** The defaults keep a validated prompt usable. */
  lemma BuiltIsUsable(path: string, parsed: ParsedPrompt)
    requires WellFormed(parsed)
    ensures UsablePrompt(BuildPromptConfig(path, parsed))
  {
    StarNotBlank();
  }

  /** A loaded prompt comes from the file the reference resolves to, an
      existing `.yaml`/`.yml` file, and is usable. */
  lemma LoadPromptMeans(promptsDir: string, promptRef: string, files: set<string>,
                        document: string -> Json, schema: seq<(string, Json)> -> AiFiles.Schema<RawPrompt>)
    ensures var r := LoadPrompt(promptsDir, promptRef, files, document, schema);
      r.Ok? ==>
        ResolvePromptPath(promptsDir, promptRef, files).Ok?
        && r.value.sourcePath == ResolvePromptPath(promptsDir, promptRef, files).value
        && r.value.sourcePath in files && YamlSuffix(r.value.sourcePath)
        && UsablePrompt(r.value)
  {
    var r := LoadPrompt(promptsDir, promptRef, files, document, schema);
    if r.Ok? {
      ResolvePromptPathFound(promptsDir, promptRef, files);
      var path := ResolvePromptPath(promptsDir, promptRef, files).value;
      var mapping := AiFiles.LoadYamlMapping(path, document(path), "Prompt file").value;
      var parsed := ValidatePrompt(schema(mapping).raw).raw;
      assert r.value == BuildPromptConfig(path, parsed);
      BuiltIsUsable(path, parsed);
    }
  }
}
