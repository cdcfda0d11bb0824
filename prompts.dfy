/** The older prompt loader of `ankiops/ai/prompts.py`: a reference is
    tried as a path of its own first, then against the prompts directory
    with the `.yaml`, `.yml` and bare spellings; the file's mapping is read
    key by key, with the legacy `fields_to_edit`/`fields_to_send` keys as
    fallbacks. Which paths exist is the set `files`, and the parsed YAML
    document of a path is the function `document`. */
module Prompts {
  import opened Wrappers
  import opened Json
  import Text
  import AiFiles
  import LlmConfigLoader
  import ModelProfiles
  import PromptLoader

  // ---------------------------------------------------------------- resolution

  /** The paths tried in the prompts directory: the reference itself when
      it has a suffix, else the reference with `.yaml`, with `.yml`, and
      bare, in that order. */
  function PromptCandidates(promptsDir: string, raw: string): seq<string> {
    var inDir := AiFiles.JoinPath(promptsDir, raw);
    if AiFiles.Suffix(inDir) != "" then [inDir]
    else [AiFiles.JoinPath(promptsDir, raw + ".yaml"), AiFiles.JoinPath(promptsDir, raw + ".yml"), inDir]
  }

  /** The candidate list is never empty and always ends with the reference
      in the prompts directory; there is one candidate exactly when the
      reference has a suffix, and otherwise the spelled-out `.yaml` and
      `.yml` ones come first. */
  lemma PromptCandidatesShape(promptsDir: string, raw: string)
    ensures var cs := PromptCandidates(promptsDir, raw);
      |cs| > 0 && cs[|cs| - 1] == AiFiles.JoinPath(promptsDir, raw)
      && (|cs| == 1 <==> AiFiles.Suffix(raw) != "")
      && (|cs| != 1 ==> |cs| == 3 && cs[0] == AiFiles.JoinPath(promptsDir, raw + ".yaml")
                                  && cs[1] == AiFiles.JoinPath(promptsDir, raw + ".yml"))
  {
    AiFiles.JoinPathName(promptsDir, raw);
  }

  /** The file the lookup settles on: the stripped reference when it names
      an existing file, else the first candidate that exists. */
  function Chosen(promptsDir: string, raw: string, files: set<string>): Option<string> {
    if raw in files then Some(raw)
    else
      var cs := PromptCandidates(promptsDir, raw);
      match AiFiles.FirstExisting(cs, files)
      case None => None
      case Some(i) => Some(cs[i])
  }

  /** The direct path wins; otherwise the chosen file is the first existing
      candidate; nothing is chosen exactly when neither the direct path nor
      any candidate exists. */
  lemma ChosenMeans(promptsDir: string, raw: string, files: set<string>)
    ensures var cs := PromptCandidates(promptsDir, raw);
      var c := Chosen(promptsDir, raw, files);
      (raw in files ==> c == Some(raw))
      && (c.Some? ==> c.value in files)
      && (raw !in files && c.Some? ==>
            exists k :: 0 <= k < |cs| && c.value == cs[k] && forall j :: 0 <= j < k ==> cs[j] !in files)
      && (c.None? <==> raw !in files && forall j :: 0 <= j < |cs| ==> cs[j] !in files)
  {
    var cs := PromptCandidates(promptsDir, raw);
    if raw !in files {
      match AiFiles.FirstExisting(cs, files)
      case None =>
      case Some(k) =>
        assert Chosen(promptsDir, raw, files).value == cs[k];
    }
  }

  /** A chosen file named `models.yaml` is refused; any other is the
      answer. */
  function NotModelsFile(path: string): (r: Result<string>)
    ensures r.Ok? <==> AiFiles.Name(path) != ModelProfiles.ModelsFileName
    ensures r.Ok? ==> r.value == path
    ensures r.Err? ==> r.error == PromptLoader.ModelsFileMessage()
  {
    if AiFiles.Name(path) == ModelProfiles.ModelsFileName then Err(PromptLoader.ModelsFileMessage())
    else Ok(path)
  }

  /** What `resolve_prompt_path` answers. */
  function ResolveSpec(promptsDir: string, promptRef: string, files: set<string>): Result<string> {
    var raw :- PromptLoader.RequirePromptRef(promptRef);
    match Chosen(promptsDir, raw, files)
    case None => Err(PromptLoader.NotFoundMessage(promptRef, PromptCandidates(promptsDir, raw)))
    case Some(path) => NotModelsFile(path)
  }

  /** For a usable reference the answer depends only on the chosen file. */
  lemma ResolveByChosen(promptsDir: string, promptRef: string, files: set<string>, raw: string)
    requires PromptLoader.RequirePromptRef(promptRef) == Ok(raw)
    ensures ResolveSpec(promptsDir, promptRef, files) ==
      match Chosen(promptsDir, raw, files)
      case None => Err(PromptLoader.NotFoundMessage(promptRef, PromptCandidates(promptsDir, raw)))
      case Some(path) => NotModelsFile(path)
  {
  }

  /** The scan of `resolve_prompt_path` over its candidates: the index of
      the first one that exists. */
  method ScanCandidates(candidates: seq<string>, files: set<string>) returns (found: Option<nat>)
    ensures found == AiFiles.FirstExisting(candidates, files)
  {
    var i := 0;
    while i < |candidates|
      invariant 0 <= i <= |candidates|
      invariant forall j :: 0 <= j < i ==> candidates[j] !in files
    {
      if candidates[i] in files {
        return Some(i);
      }
      i := i + 1;
    }
    return None;
  }

  /** `resolve_prompt_path`: the direct path, else the candidates scanned
      in order. */
  method ResolvePromptPath(promptsDir: string, promptRef: string, files: set<string>) returns (r: Result<string>)
    ensures r == ResolveSpec(promptsDir, promptRef, files)
  {
    var checked := PromptLoader.RequirePromptRef(promptRef);
    if checked.Err? {
      return Err(checked.error);
    }
    var raw := checked.value;
    ResolveByChosen(promptsDir, promptRef, files, raw);
    if raw in files {
      return NotModelsFile(raw);
    }
    var candidates := PromptCandidates(promptsDir, raw);
    var found := ScanCandidates(candidates, files);
    match found
    case None =>
      r := Err(PromptLoader.NotFoundMessage(promptRef, candidates));
    case Some(i) =>
      r := NotModelsFile(candidates[i]);
  }

  /** A blank reference is refused before any lookup. */
  lemma ResolveBlank(promptsDir: string, promptRef: string, files: set<string>)
    requires Text.IsBlank(promptRef)
    ensures ResolveSpec(promptsDir, promptRef, files) == Err("Prompt name/path cannot be empty.")
  {
  }

  /** A resolved prompt is an existing file other than `models.yaml`: the
      stripped reference itself when it exists, else the first existing
      candidate. */
  lemma ResolveOk(promptsDir: string, promptRef: string, files: set<string>)
    ensures var r := ResolveSpec(promptsDir, promptRef, files);
      r.Ok? <==>
        !Text.IsBlank(promptRef)
        && Chosen(promptsDir, Text.Strip(promptRef), files).Some?
        && AiFiles.Name(Chosen(promptsDir, Text.Strip(promptRef), files).value) != ModelProfiles.ModelsFileName
    ensures var r := ResolveSpec(promptsDir, promptRef, files);
      r.Ok? ==> r.value in files && r.value == Chosen(promptsDir, Text.Strip(promptRef), files).value
  {
    if !Text.IsBlank(promptRef) {
      ChosenMeans(promptsDir, Text.Strip(promptRef), files);
    }
  }

  /** The lookup stops at the first existing file: when that file is named
      `models.yaml` the reference is refused, even if a later candidate
      would have been a prompt. */
  lemma ResolveModelsFile(promptsDir: string, promptRef: string, files: set<string>)
    requires !Text.IsBlank(promptRef)
    ensures var c := Chosen(promptsDir, Text.Strip(promptRef), files);
      ResolveSpec(promptsDir, promptRef, files) == Err(PromptLoader.ModelsFileMessage()) <==>
      c.Some? && AiFiles.Name(c.value) == ModelProfiles.ModelsFileName
  {
    var raw := Text.Strip(promptRef);
    PromptLoader.PromptFileErrorsDiffer("", promptRef, PromptCandidates(promptsDir, raw));
  }

  /** "Prompt not found", naming every candidate tried, is the answer
      exactly when neither the stripped reference nor any candidate
      exists. */
  lemma ResolveNotFound(promptsDir: string, promptRef: string, files: set<string>)
    requires !Text.IsBlank(promptRef)
    ensures var raw := Text.Strip(promptRef);
      var cs := PromptCandidates(promptsDir, raw);
      ResolveSpec(promptsDir, promptRef, files) == Err(PromptLoader.NotFoundMessage(promptRef, cs)) <==>
      raw !in files && forall j :: 0 <= j < |cs| ==> cs[j] !in files
  {
    var raw := Text.Strip(promptRef);
    var cs := PromptCandidates(promptsDir, raw);
    ChosenMeans(promptsDir, raw, files);
    PromptLoader.PromptFileErrorsDiffer("", promptRef, cs);
  }

  // ---------------------------------------------------------------- loading

  /** The document read as a mapping: an empty document is an empty
      mapping, and anything else but a mapping is refused. */
  function PromptMapping(path: string, document: Json): (r: Result<seq<(string, Json)>>)
    ensures r.Ok? <==> document.JObj? || LlmConfigLoader.Falsy(document)
    ensures document.JObj? ==> r == Ok(document.members)
    ensures r.Err? ==> r.error == "Prompt file must contain a YAML mapping: " + path
  {
    if LlmConfigLoader.Falsy(document) then Ok([])
    else if document.JObj? then Ok(document.members)
    else Err("Prompt file must contain a YAML mapping: " + path)
  }

  /** `raw.get(key, raw.get(legacy))`: the legacy key counts only when the
      key itself is absent. */
  function KeyOrLegacy(members: seq<(string, Json)>, key: string, legacy: string): (r: Option<Json>)
    ensures Lookup(members, key).Some? ==> r == Lookup(members, key)
    ensures Lookup(members, key).None? ==> r == Lookup(members, legacy)
  {
    match Lookup(members, key)
    case Some(v) => Some(v)
    case None => Lookup(members, legacy)
  }

  /** `str(raw.get("name") or path.stem).strip()`. */
  function PromptName(path: string, members: seq<(string, Json)>): (r: string)
    ensures (Lookup(members, "name").None? || LlmConfigLoader.Falsy(Lookup(members, "name").value)) ==>
      r == Text.Strip(AiFiles.Stem(path))
    ensures Lookup(members, "name").Some? && Lookup(members, "name").value.JStr? && Lookup(members, "name").value != JStr([]) ==>
      r == Text.Strip(Lookup(members, "name").value.s)
  {
    match Lookup(members, "name")
    case None => Text.Strip(AiFiles.Stem(path))
    case Some(v) => if LlmConfigLoader.Falsy(v) then Text.Strip(AiFiles.Stem(path)) else Text.Strip(AiFiles.PyStr(v))
  }

  function PromptMessage(path: string): string {
    "Prompt file '" + path + "' requires non-empty key: prompt"
  }

  /** `prompt` must be a string that is not blank. */
  function RequirePrompt(path: string, members: seq<(string, Json)>): (r: Result<string>)
    ensures r.Ok? <==> Lookup(members, "prompt").Some? && Lookup(members, "prompt").value.JStr?
                       && !Text.IsBlank(Lookup(members, "prompt").value.s)
    ensures r.Ok? ==> r.value == Lookup(members, "prompt").value.s
    ensures r.Err? ==> r.error == PromptMessage(path)
  {
    match Lookup(members, "prompt")
    case Some(JStr(s)) => if Text.IsBlank(s) then Err(PromptMessage(path)) else Ok(s)
    case _ => Err(PromptMessage(path))
  }

  function ModelProfileMessage(path: string): string {
    "Prompt key 'model_profile' must be a non-empty string in '" + path + "'"
  }

  /** A given `model_profile` must be a non-blank string and is stripped;
      an absent or null one is no profile. */
  function PromptModelProfile(path: string, members: seq<(string, Json)>): (r: Result<Option<string>>)
    ensures Lookup(members, "model_profile").None? || Lookup(members, "model_profile") == Some(JNull) ==>
      r == Ok(None)
    ensures (Lookup(members, "model_profile").Some? && Lookup(members, "model_profile") != Some(JNull)) ==>
      (r.Ok? <==> Lookup(members, "model_profile").value.JStr? && !Text.IsBlank(Lookup(members, "model_profile").value.s))
    ensures r.Ok? && r.value.Some? ==>
      Lookup(members, "model_profile").Some? && Lookup(members, "model_profile").value.JStr?
      && r.value.value == Text.Strip(Lookup(members, "model_profile").value.s) && PromptLoader.Filled(r.value.value)
    ensures r.Err? ==> r.error == ModelProfileMessage(path)
  {
    match Lookup(members, "model_profile")
    case None => Ok(None)
    case Some(JNull) => Ok(None)
    case Some(JStr(s)) =>
      if Text.IsBlank(s) then Err(ModelProfileMessage(path))
      else
        PromptLoader.StripFilled(s);
        Ok(Some(Text.Strip(s)))
    case Some(_) => Err(ModelProfileMessage(path))
  }

  /** Whether `float(value)` succeeds: numbers and booleans convert, a
      string when it spells a float (decided by `isFloatText`), anything
      else raises. */
  predicate Numeric(value: Json, isFloatText: string -> bool) {
    match value
    case JNum(_) => true
    case JBool(_) => true
    case JStr(s) => isFloatText(s)
    case _ => false
  }

  /** `temperature` defaults to 0 and must convert to a float; its value is
      not kept by the model. */
  function CheckTemperature(path: string, members: seq<(string, Json)>, isFloatText: string -> bool): (r: Result<()>)
    ensures r.Ok? <==> Lookup(members, "temperature").None? || Numeric(Lookup(members, "temperature").value, isFloatText)
    ensures r.Err? ==> r.error == "Prompt key 'temperature' must be numeric in '" + path + "'"
  {
    var value := Lookup(members, "temperature").GetOr(JNum(0));
    if Numeric(value, isFloatText) then Ok(())
    else Err("Prompt key 'temperature' must be numeric in '" + path + "'")
  }

  /** The three pattern lists of a prompt. */
  datatype PatternLists = PatternLists(target: seq<string>, send: seq<string>, noteTypes: seq<string>)

  /** The target fields (default every field), the send fields (default
      the targets) and the note types (default every type), each read with
      `_coerce_pattern_list`. */
  function PatternFields(members: seq<(string, Json)>): (r: Result<PatternLists>)
  {
    var target :- AiFiles.CoercePatternList(KeyOrLegacy(members, "target_fields", "fields_to_edit"), "target_fields", ["*"]);
    var send :- AiFiles.CoercePatternList(KeyOrLegacy(members, "send_fields", "fields_to_send"), "send_fields", target);
    var noteTypes :- AiFiles.CoercePatternList(Lookup(members, "note_types"), "note_types", ["*"]);
    Ok(PatternLists(target, send, noteTypes))
  }

  predicate Usable(patterns: seq<string>) {
    |patterns| > 0 && forall p :: p in patterns ==> !Text.IsBlank(p)
  }

  /** A pattern-list value that is absent or null leaves the fallback; any
      other value yields a non-empty list of non-blank patterns, or an
      error. */
  lemma CoercedUsable(raw: Option<Json>, key: string, fallback: seq<string>)
    requires Usable(fallback)
    ensures AiFiles.CoercePatternList(raw, key, fallback).Ok? ==> Usable(AiFiles.CoercePatternList(raw, key, fallback).value)
  {
  }

  /** Every list read is usable, and the defaults apply where the keys
      (and their legacy spellings) are absent. */
  lemma PatternFieldsMeans(members: seq<(string, Json)>)
    ensures var r := PatternFields(members);
      r.Ok? ==>
        Usable(r.value.target) && Usable(r.value.send) && Usable(r.value.noteTypes)
        && (KeyOrLegacy(members, "target_fields", "fields_to_edit").None? ==> r.value.target == ["*"])
        && (KeyOrLegacy(members, "send_fields", "fields_to_send").None? ==> r.value.send == r.value.target)
        && (Lookup(members, "note_types").None? ==> r.value.noteTypes == ["*"])
  {
    var r := PatternFields(members);
    if r.Ok? {
      PromptLoader.StarNotBlank();
      var target := AiFiles.CoercePatternList(KeyOrLegacy(members, "target_fields", "fields_to_edit"), "target_fields", ["*"]);
      CoercedUsable(KeyOrLegacy(members, "target_fields", "fields_to_edit"), "target_fields", ["*"]);
      CoercedUsable(KeyOrLegacy(members, "send_fields", "fields_to_send"), "send_fields", target.value);
      CoercedUsable(Lookup(members, "note_types"), "note_types", ["*"]);
    }
  }

  /** The prompt a mapping read from `path` describes, checked in the order
      of `load_prompt_config`. */
  function PromptFromMapping(path: string, members: seq<(string, Json)>, isFloatText: string -> bool)
    : (r: Result<PromptLoader.PromptConfig>)
  {
    var name := PromptName(path, members);
    var prompt :- RequirePrompt(path, members);
    var patterns :- PatternFields(members);
    var modelProfile :- PromptModelProfile(path, members);
    var _ :- CheckTemperature(path, members, isFloatText);
    Ok(PromptLoader.PromptConfig(name, Text.Strip(prompt), patterns.target, patterns.send, patterns.noteTypes,
                                 modelProfile, path))
  }

  /** `load_prompt_config`: resolve the reference, read the file, build the
      prompt. */
  function LoadPromptConfig(promptsDir: string, promptRef: string, files: set<string>,
                            document: string -> Json, isFloatText: string -> bool)
    : (r: Result<PromptLoader.PromptConfig>)
  {
    var path :- ResolveSpec(promptsDir, promptRef, files);
    var members :- PromptMapping(path, document(path));
    PromptFromMapping(path, members, isFloatText)
  }

  /** A missing or blank prompt is the first thing refused. */
  lemma PromptRequired(path: string, members: seq<(string, Json)>, isFloatText: string -> bool)
    requires RequirePrompt(path, members).Err?
    ensures PromptFromMapping(path, members, isFloatText) == Err(PromptMessage(path))
  {
  }

  /** The defaults: without `target_fields`/`fields_to_edit` every field is
      a target, without `send_fields`/`fields_to_send` the targets are
      sent, without `note_types` every type matches, and without a name the
      file's stem names the prompt. */
  lemma PromptDefaults(path: string, members: seq<(string, Json)>, isFloatText: string -> bool)
    ensures var r := PromptFromMapping(path, members, isFloatText);
      r.Ok? ==>
        (KeyOrLegacy(members, "target_fields", "fields_to_edit").None? ==> r.value.targetFields == ["*"])
        && (KeyOrLegacy(members, "send_fields", "fields_to_send").None? ==> r.value.sendFields == r.value.targetFields)
        && (Lookup(members, "note_types").None? ==> r.value.noteTypes == ["*"])
        && (Lookup(members, "name").None? ==> r.value.name == Text.Strip(AiFiles.Stem(path)))
  {
    if PromptFromMapping(path, members, isFloatText).Ok? {
      PromptFromMappingParts(path, members, isFloatText);
      PatternFieldsMeans(members);
    }
  }

  /** A prompt built from a mapping is made of the parts read from it, each
      of which was accepted. */
  lemma PromptFromMappingParts(path: string, members: seq<(string, Json)>, isFloatText: string -> bool)
    requires PromptFromMapping(path, members, isFloatText).Ok?
    ensures RequirePrompt(path, members).Ok? && PatternFields(members).Ok?
    ensures PromptModelProfile(path, members).Ok? && CheckTemperature(path, members, isFloatText).Ok?
    ensures var patterns := PatternFields(members).value;
      PromptFromMapping(path, members, isFloatText).value ==
        PromptLoader.PromptConfig(PromptName(path, members), Text.Strip(RequirePrompt(path, members).value),
                                  patterns.target, patterns.send, patterns.noteTypes,
                                  PromptModelProfile(path, members).value, path)
  {
  }

  /** Every loaded prompt has its stripped, non-blank prompt text and
      non-empty lists of non-blank patterns, and names the path it was read
      from. */
  lemma PromptFromMappingMeans(path: string, members: seq<(string, Json)>, isFloatText: string -> bool)
    ensures var r := PromptFromMapping(path, members, isFloatText);
      r.Ok? ==>
        PromptLoader.UsablePrompt(r.value) && r.value.sourcePath == path
        && r.value.prompt == Text.Strip(Lookup(members, "prompt").value.s)
  {
    var r := PromptFromMapping(path, members, isFloatText);
    if r.Ok? {
      PromptFromMappingParts(path, members, isFloatText);
      PatternFieldsMeans(members);
      PromptLoader.StripFilled(RequirePrompt(path, members).value);
    }
  }

  /** A loaded prompt has a model profile exactly when the mapping gives a
      non-null one, and then a filled one; its temperature converts. */
  lemma PromptProfileAndTemperature(path: string, members: seq<(string, Json)>, isFloatText: string -> bool)
    ensures var r := PromptFromMapping(path, members, isFloatText);
      r.Ok? ==>
        PromptLoader.FilledOpt(r.value.modelProfile)
        && (r.value.modelProfile.None? <==> Lookup(members, "model_profile").None? || Lookup(members, "model_profile") == Some(JNull))
        && (Lookup(members, "temperature").None? || Numeric(Lookup(members, "temperature").value, isFloatText))
  {
    if PromptFromMapping(path, members, isFloatText).Ok? {
      PromptFromMappingParts(path, members, isFloatText);
    }
  }

  /** A loaded prompt was read from the file the reference resolves to. */
  lemma LoadPromptConfigMeans(promptsDir: string, promptRef: string, files: set<string>,
                              document: string -> Json, isFloatText: string -> bool)
    ensures var r := LoadPromptConfig(promptsDir, promptRef, files, document, isFloatText);
      r.Ok? ==>
        ResolveSpec(promptsDir, promptRef, files).Ok?
        && r.value.sourcePath == ResolveSpec(promptsDir, promptRef, files).value
        && r.value.sourcePath in files
        && AiFiles.Name(r.value.sourcePath) != ModelProfiles.ModelsFileName
        && PromptLoader.UsablePrompt(r.value)
  {
    var r := LoadPromptConfig(promptsDir, promptRef, files, document, isFloatText);
    if r.Ok? {
      ResolveOk(promptsDir, promptRef, files);
      var path := ResolveSpec(promptsDir, promptRef, files).value;
      var members := PromptMapping(path, document(path)).value;
      assert r == PromptFromMapping(path, members, isFloatText);
      PromptFromMappingMeans(path, members, isFloatText);
    }
  }
}
