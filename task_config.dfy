/** Task YAML files of a collection (`ankiops/ai/task_config.py`): a task
    reference is resolved against the tasks directory and the set of
    existing files, the file's mapping goes through pydantic's type checks
    (a parameter), the field validators and the batch/field checks, and the
    id and scopes are settled. */
module TaskConfig {
  import opened Wrappers
  import opened Json
  import Text
  import AiFiles
  import PromptLoader

  const TaskSchema: string := "ai.task.v1"
  const DefaultModelAlias: string := "default"

  /** The batch sizes used when a task gives none. */
  function DefaultBatchSize(batch: string): Option<nat> {
    if batch == "single" then Some(1)
    else if batch == "batch" then Some(8)
    else if batch == "collection" then Some(16)
    else None
  }

  predicate ValidBatchMode(batch: string) {
    batch == "single" || batch == "batch" || batch == "collection"
  }

  /** Exactly the three batch modes have a default size, and it is
      positive. */
  lemma DefaultBatchSizeMeans(batch: string)
    ensures DefaultBatchSize(batch).Some? <==> ValidBatchMode(batch)
    ensures DefaultBatchSize(batch).Some? ==> DefaultBatchSize(batch).value > 0
  {
  }

  /** `_RawTaskConfig` as pydantic's type checks leave it. Keys that may be
      absent are `Option`s; the pattern lists are the raw values their
      `mode="before"` validators receive, and `read_fields` and
      `write_fields` are required. */
  datatype RawTask = RawTask(
    schemaName: Option<string>,
    id: Option<string>,
    description: Option<string>,
    model: Option<string>,
    instructions: string,
    batch: Option<string>,
    batchSize: Option<int>,
    scopeDecks: Option<Json>,
    scopeSubdecks: bool,
    scopeNoteTypes: Option<Json>,
    readFields: Json,
    writeFields: Json)

  /** `_RawTaskConfig` after its field validators and its model validator,
      with the batch size resolved. */
  datatype ParsedTask = ParsedTask(
    id: Option<string>,
    description: Option<string>,
    model: Option<string>,
    instructions: string,
    batch: string,
    batchSize: int,
    scopeDecks: Option<seq<string>>,
    scopeSubdecks: bool,
    scopeNoteTypes: Option<seq<string>>,
    readFields: seq<string>,
    writeFields: seq<string>)

  /** A task as the AI runner uses it; the temperature is not modelled. */
  datatype Task = Task(
    id: string,
    description: string,
    model: Option<string>,
    instructions: string,
    batch: string,
    batchSize: int,
    scopeDecks: seq<string>,
    scopeSubdecks: bool,
    scopeNoteTypes: seq<string>,
    readFields: seq<string>,
    writeFields: seq<string>,
    sourcePath: string)

  // ---------------------------------------------------------------- field validators

  /** `_validate_schema`: a given schema name must be `ai.task.v1` once
      stripped; an absent one takes that default. */
  function SchemaName(value: Option<string>): (r: AiFiles.Schema<string>)
    ensures r.Typed? <==> value.None? || Text.Strip(value.value) == TaskSchema
    ensures r.Typed? ==> r.raw == TaskSchema
    ensures r.Untyped? ==> r.error == AiFiles.ValueError("schema", "must equal 'ai.task.v1'")
  {
    match value
    case None => AiFiles.Typed(TaskSchema)
    case Some(v) =>
      if Text.Strip(v) != TaskSchema then AiFiles.Untyped(AiFiles.ValueError("schema", "must equal 'ai.task.v1'"))
      else AiFiles.Typed(Text.Strip(v))
  }

  /** Whether a stripped model reference names the default profile. */
  predicate IsDefaultAlias(s: string) {
    Text.Lower(s) == DefaultModelAlias
  }

  /** `_normalize_model_profile_ref`: a given model reference is stripped
      and must not be blank; `default`, in any letter case, means no
      profile. */
  function ModelRef(value: Option<string>): (r: AiFiles.Schema<Option<string>>)
    ensures value.None? ==> r == AiFiles.Typed(None)
    ensures value.Some? ==> (r.Typed? <==> !Text.IsBlank(value.value))
    ensures value.Some? && r.Typed? ==>
      r.raw == if IsDefaultAlias(Text.Strip(value.value)) then None else Some(Text.Strip(value.value))
    ensures r.Typed? ==> PromptLoader.FilledOpt(r.raw) && (r.raw.Some? ==> !IsDefaultAlias(r.raw.value))
    ensures r.Untyped? ==> r.error == AiFiles.ValueError("model", "must be a non-empty string")
  {
    match value
    case None => AiFiles.Typed(None)
    case Some(v) =>
      match PromptLoader.NonEmptyString("model", v)
      case Untyped(e) => AiFiles.Untyped(e)
      case Typed(s) => if IsDefaultAlias(s) then AiFiles.Typed(None) else AiFiles.Typed(Some(s))
  }

  /** `batch_size` must be greater than 0 when given (pydantic's `gt=0`). */
  function BatchSizeField(value: Option<int>): (r: AiFiles.Schema<Option<int>>)
    ensures r.Typed? <==> value.None? || value.value > 0
    ensures r.Typed? ==> r.raw == value
    ensures r.Untyped? ==> r.error == AiFiles.FieldError("batch_size", "Input should be greater than 0")
  {
    if value.Some? && value.value <= 0 then AiFiles.Untyped(AiFiles.FieldError("batch_size", "Input should be greater than 0"))
    else AiFiles.Typed(value)
  }

  /** A required pattern list: the validator's `None` for a null value
      then fails the list type check. */
  function RequiredPatternField(loc: string, value: Json): (r: AiFiles.Schema<seq<string>>)
    ensures r.Typed? ==> |r.raw| > 0 && forall p :: p in r.raw ==> !Text.IsBlank(p)
    ensures r.Typed? <==> PromptLoader.PatternField(loc, Some(value)).Typed? && value != JNull
    ensures r.Typed? ==> Some(r.raw) == PromptLoader.PatternField(loc, Some(value)).raw
  {
    match PromptLoader.PatternField(loc, Some(value))
    case Untyped(e) => AiFiles.Untyped(e)
    case Typed(None) => AiFiles.Untyped(AiFiles.FieldError(loc, "Input should be a valid list"))
    case Typed(Some(ps)) => AiFiles.Typed(ps)
  }

  // ---------------------------------------------------------------- model validator

  /** The write fields that are not read fields, in order. */
  function Missing(writeFields: seq<string>, readFields: seq<string>): (r: seq<string>)
    ensures forall f :: f in r <==> f in writeFields && f !in readFields
    ensures |r| <= |writeFields|
  {
    if |writeFields| == 0 then []
    else
      var rest := Missing(writeFields[..|writeFields| - 1], readFields);
      var last := writeFields[|writeFields| - 1];
      assert writeFields == writeFields[..|writeFields| - 1] + [last];
      if last in readFields then rest else rest + [last]
  }

  /** Nothing is missing exactly when every write field is also read. */
  lemma MissingEmptyIff(writeFields: seq<string>, readFields: seq<string>)
    ensures Missing(writeFields, readFields) == [] <==> forall f :: f in writeFields ==> f in readFields
  {
    var m := Missing(writeFields, readFields);
    if m != [] {
      assert m[0] in m;
    }
  }

  function SubsetMessage(writeFields: seq<string>, readFields: seq<string>): string {
    "write_fields must be a subset of read_fields; missing: " + Text.Join(Missing(writeFields, readFields), ", ")
  }

  /** `_validate_batch_and_fields`: the batch mode must be known; a missing
      batch size takes the mode's default and a single-note task must have
      size 1; every write field must also be read. Its errors belong to the
      whole model, so they carry no field path. */
  function BatchAndFields(batch: string, batchSize: Option<int>, readFields: seq<string>, writeFields: seq<string>)
    : (r: AiFiles.Schema<int>)
  {
    if !ValidBatchMode(batch) then
      AiFiles.Untyped(AiFiles.ValueError("", "batch must be one of: batch, collection, single"))
    else
      var size := if batchSize.Some? then batchSize.value else DefaultBatchSize(batch).value;
      if batch == "single" && size != 1 then
        AiFiles.Untyped(AiFiles.ValueError("", "batch_size must be 1 when batch is 'single'"))
      else if Missing(writeFields, readFields) != [] then
        AiFiles.Untyped(AiFiles.ValueError("", SubsetMessage(writeFields, readFields)))
      else AiFiles.Typed(size)
  }

  /** The batch and field rules, both ways: the size is the given one or
      the mode's default, single-note tasks have size 1, and the fields
      check fails, naming the missing fields, exactly when a write field is
      not read. */
  lemma BatchAndFieldsMeans(batch: string, batchSize: Option<int>, readFields: seq<string>, writeFields: seq<string>)
    requires batchSize.Some? ==> batchSize.value > 0
    ensures var r := BatchAndFields(batch, batchSize, readFields, writeFields);
      r.Typed? <==>
        ValidBatchMode(batch)
        && (batch == "single" ==> batchSize.None? || batchSize.value == 1)
        && forall f :: f in writeFields ==> f in readFields
    ensures var r := BatchAndFields(batch, batchSize, readFields, writeFields);
      r.Typed? ==>
        r.raw > 0 && (batch == "single" ==> r.raw == 1)
        && r.raw == (if batchSize.Some? then batchSize.value else DefaultBatchSize(batch).value)
    ensures ValidBatchMode(batch) && (batch == "single" ==> batchSize.None? || batchSize.value == 1)
            && !(forall f :: f in writeFields ==> f in readFields) ==>
      BatchAndFields(batch, batchSize, readFields, writeFields) ==
        AiFiles.Untyped(AiFiles.ValueError("", SubsetMessage(writeFields, readFields)))
  {
    MissingEmptyIff(writeFields, readFields);
  }

  /** The validators of `_RawTaskConfig` in field order, then the model
      validator; the first failure is the one reported. */
  function ValidateTask(raw: RawTask): (r: AiFiles.Schema<ParsedTask>)
  {
    var _ :- SchemaName(raw.schemaName);
    var id :- PromptLoader.OptionalString("id", raw.id);
    var description :- PromptLoader.OptionalString("description", raw.description);
    var model :- ModelRef(raw.model);
    var instructions :- PromptLoader.NonEmptyString("instructions", raw.instructions);
    var batchSize :- BatchSizeField(raw.batchSize);
    var scopeDecks :- PromptLoader.PatternField("scope_decks", raw.scopeDecks);
    var scopeNoteTypes :- PromptLoader.PatternField("scope_note_types", raw.scopeNoteTypes);
    var readFields :- RequiredPatternField("read_fields", raw.readFields);
    var writeFields :- RequiredPatternField("write_fields", raw.writeFields);
    var batch := raw.batch.GetOr("single");
    var size :- BatchAndFields(batch, batchSize, readFields, writeFields);
    AiFiles.Typed(ParsedTask(id, description, model, instructions, batch, size, scopeDecks,
                             raw.scopeSubdecks, scopeNoteTypes, readFields, writeFields))
  }

  /** What every validated task satisfies. */
  predicate WellFormed(p: ParsedTask) {
    PromptLoader.FilledOpt(p.id) && PromptLoader.FilledOpt(p.description) && PromptLoader.FilledOpt(p.model)
    && PromptLoader.Filled(p.instructions)
    && ValidBatchMode(p.batch) && p.batchSize > 0 && (p.batch == "single" ==> p.batchSize == 1)
    && PromptLoader.PatternsOpt(p.scopeDecks) && PromptLoader.PatternsOpt(p.scopeNoteTypes)
    && |p.readFields| > 0 && |p.writeFields| > 0
    && (forall f :: f in p.writeFields ==> f in p.readFields)
  }

  /** A validated task is made of the validated parts of the raw one. */
  lemma ValidateTaskParts(raw: RawTask)
    requires ValidateTask(raw).Typed?
    ensures PromptLoader.OptionalString("id", raw.id).Typed? && PromptLoader.OptionalString("description", raw.description).Typed?
    ensures ModelRef(raw.model).Typed? && PromptLoader.NonEmptyString("instructions", raw.instructions).Typed?
    ensures BatchSizeField(raw.batchSize).Typed?
    ensures PromptLoader.PatternField("scope_decks", raw.scopeDecks).Typed?
    ensures PromptLoader.PatternField("scope_note_types", raw.scopeNoteTypes).Typed?
    ensures RequiredPatternField("read_fields", raw.readFields).Typed?
    ensures RequiredPatternField("write_fields", raw.writeFields).Typed?
    ensures var readFields := RequiredPatternField("read_fields", raw.readFields).raw;
      var writeFields := RequiredPatternField("write_fields", raw.writeFields).raw;
      var p := ValidateTask(raw).raw;
      BatchAndFields(raw.batch.GetOr("single"), raw.batchSize, readFields, writeFields) == AiFiles.Typed(p.batchSize)
      && p.id == PromptLoader.OptionalString("id", raw.id).raw
      && p.description == PromptLoader.OptionalString("description", raw.description).raw
      && p.model == ModelRef(raw.model).raw
      && p.instructions == PromptLoader.NonEmptyString("instructions", raw.instructions).raw
      && p.batch == raw.batch.GetOr("single")
      && p.scopeDecks == PromptLoader.PatternField("scope_decks", raw.scopeDecks).raw
      && p.scopeNoteTypes == PromptLoader.PatternField("scope_note_types", raw.scopeNoteTypes).raw
      && p.readFields == readFields && p.writeFields == writeFields
  {
  }

  /** Every validated task is well formed, and its batch size is the given
      one or the default of its mode. */
  lemma ValidateTaskMeans(raw: RawTask)
    ensures var r := ValidateTask(raw);
      r.Typed? ==>
        WellFormed(r.raw)
        && r.raw.batchSize == (if raw.batchSize.Some? then raw.batchSize.value else DefaultBatchSize(r.raw.batch).value)
  {
    var r := ValidateTask(raw);
    if r.Typed? {
      ValidateTaskParts(raw);
      BatchAndFieldsMeans(r.raw.batch, raw.batchSize, r.raw.readFields, r.raw.writeFields);
    }
  }

  // ---------------------------------------------------------------- resolution

  /** `_require_task_ref`. */
  function RequireTaskRef(taskRef: string): (r: Result<string>)
    ensures r.Err? <==> Text.IsBlank(taskRef)
    ensures r.Err? ==> r.error == "Task name/path cannot be empty."
    ensures r.Ok? ==> r.value == Text.Strip(taskRef) && PromptLoader.Filled(r.value)
  {
    if Text.IsBlank(taskRef) then Err("Task name/path cannot be empty.")
    else
      PromptLoader.StripFilled(taskRef);
      Ok(Text.Strip(taskRef))
  }

  function ExtensionMessage(path: string): string {
    "Task file must use .yaml or .yml extension: " + path
  }

  /** `_assert_is_task_file`: only the suffix is checked. */
  function AssertIsTaskFile(path: string): (r: Result<string>)
    ensures r.Ok? <==> PromptLoader.YamlSuffix(path)
    ensures r.Ok? ==> r.value == path
    ensures r.Err? ==> r.error == ExtensionMessage(path)
  {
    if PromptLoader.YamlSuffix(path) then Ok(path) else Err(ExtensionMessage(path))
  }

  function NotFoundMessage(taskRef: string, candidates: seq<string>): string {
    "Task not found: '" + taskRef + "'. Tried: " + AiFiles.Tried(candidates)
  }

  /** `resolve_task_path`: the first candidate that exists, checked to be a
      YAML file; when none exists, every candidate is named. */
  function ResolveTaskPath(tasksDir: string, taskRef: string, files: set<string>): (r: Result<string>)
  {
    var raw :- RequireTaskRef(taskRef);
    var candidates :- AiFiles.Candidates(tasksDir, raw);
    match AiFiles.FirstExisting(candidates, files)
    case None => Err(NotFoundMessage(taskRef, candidates))
    case Some(i) => AssertIsTaskFile(candidates[i])
  }

  /** A resolved task file is the first existing candidate of the stripped
      reference, and it has a `.yaml` or `.yml` suffix. */
  lemma ResolveTaskPathFound(tasksDir: string, taskRef: string, files: set<string>)
    ensures var r := ResolveTaskPath(tasksDir, taskRef, files);
      r.Ok? ==>
        !Text.IsBlank(taskRef) && AiFiles.Candidates(tasksDir, Text.Strip(taskRef)).Ok?
        && var cs := AiFiles.Candidates(tasksDir, Text.Strip(taskRef)).value;
        AiFiles.FirstExisting(cs, files).Some?
        && r.value == cs[AiFiles.FirstExisting(cs, files).value]
        && r.value in files && PromptLoader.YamlSuffix(r.value)
  {
  }

  /** "Task not found" messages read differently from the extension
      refusal. */
  lemma TaskErrorsDiffer(path: string, taskRef: string, candidates: seq<string>)
    ensures NotFoundMessage(taskRef, candidates) != ExtensionMessage(path)
  {
    assert NotFoundMessage(taskRef, candidates)[5] == 'n';
    assert ExtensionMessage(path)[5] == 'f';
  }

  /** For a usable reference, "not found", naming every candidate, is the
      answer exactly when none of the candidates exists. */
  lemma ResolveTaskPathNotFound(tasksDir: string, taskRef: string, files: set<string>)
    requires !Text.IsBlank(taskRef) && AiFiles.Candidates(tasksDir, Text.Strip(taskRef)).Ok?
    ensures var cs := AiFiles.Candidates(tasksDir, Text.Strip(taskRef)).value;
      (forall c :: c in cs ==> c !in files) <==>
      ResolveTaskPath(tasksDir, taskRef, files) == Err(NotFoundMessage(taskRef, cs))
  {
    var raw := RequireTaskRef(taskRef).value;
    assert raw == Text.Strip(taskRef);
    var cs := AiFiles.Candidates(tasksDir, raw).value;
    var r := ResolveTaskPath(tasksDir, taskRef, files);
    match AiFiles.FirstExisting(cs, files)
    case None =>
      assert r == Err(NotFoundMessage(taskRef, cs));
      forall c | c in cs
        ensures c !in files
      {
        var j :| 0 <= j < |cs| && cs[j] == c;
      }
    case Some(i) =>
      assert cs[i] in cs && cs[i] in files;
      assert r == AssertIsTaskFile(cs[i]);
      TaskErrorsDiffer(cs[i], taskRef, cs);
  }

  // ---------------------------------------------------------------- loading

  function IdMessage(path: string, id: string): string {
    "Task id must match file name stem in '" + path + "' (expected '" + AiFiles.Stem(path) + "', got '" + id + "')"
  }

  /** The task a validated record read from `path` describes: a given id
      must be the file's stem, a missing one is the stem; scopes default to
      every deck and every note type, the description to "". */
  function BuildTask(path: string, parsed: ParsedTask): (r: Result<Task>)
  {
    if parsed.id.Some? && parsed.id.value != AiFiles.Stem(path) then Err(IdMessage(path, parsed.id.value))
    else
      Ok(Task(
        parsed.id.GetOr(AiFiles.Stem(path)),
        parsed.description.GetOr(""),
        parsed.model,
        parsed.instructions,
        parsed.batch,
        parsed.batchSize,
        parsed.scopeDecks.GetOr(["*"]),
        parsed.scopeSubdecks,
        parsed.scopeNoteTypes.GetOr(["*"]),
        parsed.readFields,
        parsed.writeFields,
        path))
  }

  /** The id always ends up the file's stem: a different given id is
      refused with both names; the defaults are as described. */
  lemma BuildTaskMeans(path: string, parsed: ParsedTask)
    ensures var r := BuildTask(path, parsed);
      (r.Err? <==> parsed.id.Some? && parsed.id.value != AiFiles.Stem(path))
      && (r.Err? ==> r.error == IdMessage(path, parsed.id.value))
      && (r.Ok? ==>
            r.value.id == AiFiles.Stem(path) && r.value.sourcePath == path
            && r.value.scopeDecks == (if parsed.scopeDecks.Some? then parsed.scopeDecks.value else ["*"])
            && r.value.scopeNoteTypes == (if parsed.scopeNoteTypes.Some? then parsed.scopeNoteTypes.value else ["*"])
            && r.value.description == (if parsed.description.Some? then parsed.description.value else "")
            && r.value.readFields == parsed.readFields && r.value.writeFields == parsed.writeFields
            && r.value.batchSize == parsed.batchSize)
  {
  }

  /** `load_task_config`: the file a reference resolves to, read as
      `document`, typed by `schema` (pydantic's own checks), validated and
      completed. Validation failures are reported with the file's path. */
  function LoadTaskConfig(tasksDir: string, taskRef: string, files: set<string>,
                          document: string -> Json, schema: seq<(string, Json)> -> AiFiles.Schema<RawTask>)
    : (r: Result<Task>)
  {
    var path :- ResolveTaskPath(tasksDir, taskRef, files);
    var mapping :- AiFiles.LoadYamlMapping(path, document(path), "Task file");
    match schema(mapping)
    case Untyped(e) => Err(AiFiles.InvalidConfig("task", path, e))
    case Typed(raw) =>
      match ValidateTask(raw)
      case Untyped(e) => Err(AiFiles.InvalidConfig("task", path, e))
      case Typed(parsed) => BuildTask(path, parsed)
  }

  /** What every task the runner receives satisfies. */
  predicate UsableTask(t: Task) {
    PromptLoader.Filled(t.instructions)
    && ValidBatchMode(t.batch) && t.batchSize > 0 && (t.batch == "single" ==> t.batchSize == 1)
    && |t.scopeDecks| > 0 && |t.scopeNoteTypes| > 0
    && |t.readFields| > 0 && |t.writeFields| > 0
    && (forall f :: f in t.writeFields ==> f in t.readFields)
    && PromptLoader.FilledOpt(t.model) && (t.model.Some? ==> !IsDefaultAlias(t.model.value))
  }

  /** A loaded task comes from an existing `.yaml`/`.yml` file, carries its
      stem as id, and is usable. */
  lemma LoadTaskConfigMeans(tasksDir: string, taskRef: string, files: set<string>,
                            document: string -> Json, schema: seq<(string, Json)> -> AiFiles.Schema<RawTask>)
    ensures var r := LoadTaskConfig(tasksDir, taskRef, files, document, schema);
      r.Ok? ==>
        ResolveTaskPath(tasksDir, taskRef, files).Ok?
        && r.value.sourcePath == ResolveTaskPath(tasksDir, taskRef, files).value
        && r.value.sourcePath in files && PromptLoader.YamlSuffix(r.value.sourcePath)
        && r.value.id == AiFiles.Stem(r.value.sourcePath)
        && UsableTask(r.value)
  {
    var r := LoadTaskConfig(tasksDir, taskRef, files, document, schema);
    if r.Ok? {
      ResolveTaskPathFound(tasksDir, taskRef, files);
      var path := ResolveTaskPath(tasksDir, taskRef, files).value;
      var mapping := AiFiles.LoadYamlMapping(path, document(path), "Task file").value;
      var raw := schema(mapping).raw;
      var parsed := ValidateTask(raw).raw;
      assert r == BuildTask(path, parsed);
      ValidateTaskMeans(raw);
      BuildTaskMeans(path, parsed);
      ValidateTaskParts(raw);
    }
  }
}
