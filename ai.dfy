/** The first AI layer (ankiops/ai.py): collection-scoped AI defaults kept
    in the database's config table, the runtime configuration resolved from
    them, the command line's overrides and the environment, the recursive
    deck selection, and the synchronous prompt run that asks an editor for
    each note in turn and writes back the target fields that changed. */
module Ai {
  import opened Wrappers
  import opened Json
  import Text
  import Glob
  import Seqs
  import Db
  import TaskSelection

  const ValidProviders: set<string> := {"local", "remote"}
  const DefaultTimeoutSeconds: int := 60
  const DefaultApiKeyEnv: string := "ANKIOPS_AI_API_KEY"

  /** The config-table keys of the five stored settings. */
  const CfgProvider: string := "ai.provider"
  const CfgModel: string := "ai.model"
  const CfgBaseUrl: string := "ai.base_url"
  const CfgApiKeyEnv: string := "ai.api_key_env"
  const CfgTimeoutSeconds: string := "ai.timeout_seconds"

  /** A provider's default model, endpoint and key variable. */
  datatype ProviderDefaults = ProviderDefaults(model: string, baseUrl: string, apiKeyEnv: string)

  const LocalDefaults: ProviderDefaults :=
    ProviderDefaults("llama3.1:8b", "http://localhost:11434/v1", DefaultApiKeyEnv)
  const RemoteDefaults: ProviderDefaults :=
    ProviderDefaults("gpt-4o-mini", "https://api.openai.com/v1", DefaultApiKeyEnv)

  /** `AIConfig`. */
  datatype AiConfig = AiConfig(
    provider: string,
    model: string,
    baseUrl: string,
    apiKeyEnv: string,
    timeoutSeconds: int,
    apiKey: Option<string>)

  // ---------------------------------------------------------------- defaults

  /** `_provider_defaults`: an unknown provider reads as `local`. */
  function DefaultsFor(provider: string): (d: ProviderDefaults)
    ensures d == if provider == "remote" then RemoteDefaults else LocalDefaults
  {
    var known := if provider !in ValidProviders then "local" else provider;
    if known == "local" then LocalDefaults else RemoteDefaults
  }

  /** Python's `value or fallback` on an optional string: a missing or
      empty value gives the fallback. */
  function Or(value: Option<string>, fallback: string): string {
    if value.Some? && value.value != "" then value.value else fallback
  }

  /** `_parse_positive_int`: the fallback for a missing value, one `int()`
      cannot parse, or one that is not positive. */
  function ParsePositiveInt(raw: Option<string>, fallback: int): int {
    match raw
    case None => fallback
    case Some(s) =>
      match Text.ParseInt(s)
      case None => fallback
      case Some(v) => if v <= 0 then fallback else v
  }

  /** The parsed value is used exactly when it exists and is positive;
      so the result is positive whenever the fallback is. */
  lemma ParsePositiveIntMeans(raw: Option<string>, fallback: int)
    ensures var r := ParsePositiveInt(raw, fallback);
      (raw.Some? && Text.ParseInt(raw.value).Some? && Text.ParseInt(raw.value).value > 0 ==>
         r == Text.ParseInt(raw.value).value)
      && (!(raw.Some? && Text.ParseInt(raw.value).Some? && Text.ParseInt(raw.value).value > 0) ==>
         r == fallback)
      && (fallback > 0 ==> r > 0)
  {
  }

  /** A positive number written with `str()` is read back unchanged. */
  lemma ParsePositiveIntRoundTrip(n: int, fallback: int)
    requires n > 0
    ensures ParsePositiveInt(Some(Text.IntToString(n)), fallback) == n
  {
    Text.ParseIntToString(n);
  }

  // ---------------------------------------------------------------- stored defaults

  /** `db.get_config(key)` on the config table. */
  function Stored(config: map<string, string>, key: string): Option<string> {
    if key in config then Some(config[key]) else None
  }

  /** `load_ai_config`, on the config table's contents. */
  function LoadSpec(config: map<string, string>): AiConfig {
    var named := Or(Stored(config, CfgProvider), "local");
    var provider := if named in ValidProviders then named else "local";
    var defaults := DefaultsFor(provider);
    AiConfig(
      provider,
      Or(Stored(config, CfgModel), defaults.model),
      Or(Stored(config, CfgBaseUrl), defaults.baseUrl),
      Or(Stored(config, CfgApiKeyEnv), defaults.apiKeyEnv),
      ParsePositiveInt(Stored(config, CfgTimeoutSeconds), DefaultTimeoutSeconds),
      None)
  }

  /** A stored provider is kept only when it is valid, else `local`; every
      empty or missing setting takes that provider's default; the timeout is
      always positive and no key is loaded. */
  lemma LoadSpecMeans(config: map<string, string>)
    ensures var c := LoadSpec(config);
      c.provider in ValidProviders
      && (c.provider == (if CfgProvider in config && config[CfgProvider] in ValidProviders
                         then config[CfgProvider] else "local"))
      && (CfgModel in config && config[CfgModel] != "" ==> c.model == config[CfgModel])
      && (!(CfgModel in config && config[CfgModel] != "") ==> c.model == DefaultsFor(c.provider).model)
      && (CfgBaseUrl in config && config[CfgBaseUrl] != "" ==> c.baseUrl == config[CfgBaseUrl])
      && (!(CfgBaseUrl in config && config[CfgBaseUrl] != "") ==> c.baseUrl == DefaultsFor(c.provider).baseUrl)
      && (CfgApiKeyEnv in config && config[CfgApiKeyEnv] != "" ==> c.apiKeyEnv == config[CfgApiKeyEnv])
      && (!(CfgApiKeyEnv in config && config[CfgApiKeyEnv] != "") ==> c.apiKeyEnv == DefaultApiKeyEnv)
      && c.timeoutSeconds > 0
      && c.apiKey.None?
  {
    assert "" !in ValidProviders;
    ParsePositiveIntMeans(Stored(config, CfgTimeoutSeconds), DefaultTimeoutSeconds);
  }

  /** `load_ai_config(db)`: five reads of the config table. */
  method LoadAiConfig(db: Db.SqliteDb) returns (c: AiConfig)
    requires db.Valid()
    ensures c == LoadSpec(db.store.config)
  {
    var raw := db.GetConfig(CfgProvider);
    var provider := Or(raw, "local");
    if provider !in ValidProviders {
      provider := "local";
    }
    var defaults := DefaultsFor(provider);
    var model := db.GetConfig(CfgModel);
    var baseUrl := db.GetConfig(CfgBaseUrl);
    var apiKeyEnv := db.GetConfig(CfgApiKeyEnv);
    var timeout := db.GetConfig(CfgTimeoutSeconds);
    c := AiConfig(provider, Or(model, defaults.model), Or(baseUrl, defaults.baseUrl),
                  Or(apiKeyEnv, defaults.apiKeyEnv), ParsePositiveInt(timeout, DefaultTimeoutSeconds), None);
  }

  /** The keyword arguments of `save_ai_config`. */
  datatype SaveArgs = SaveArgs(
    provider: Option<string>,
    model: Option<string>,
    baseUrl: Option<string>,
    apiKeyEnv: Option<string>,
    timeoutSeconds: Option<int>)

  /** The config table after a save, and what the save returns or raises. */
  datatype Saved = Saved(config: map<string, string>, result: Result<AiConfig>)

  function Put(config: map<string, string>, key: string, value: Option<string>): map<string, string> {
    if value.Some? then config[key := value.value] else config
  }

  const ProviderMessage: string := "provider must be one of: local, remote"
  const TimeoutMessage: string := "timeout_seconds must be > 0"

  /** `save_ai_config`: each given setting is written in argument order; an
      invalid provider is refused before anything is written, a timeout that
      is not positive after the other settings were; the result is what a
      load then reads. */
  function SaveSpec(config: map<string, string>, a: SaveArgs): Saved {
    if a.provider.Some? && a.provider.value !in ValidProviders then Saved(config, Err(ProviderMessage))
    else
      var written := Put(Put(Put(Put(config, CfgProvider, a.provider), CfgModel, a.model),
                             CfgBaseUrl, a.baseUrl), CfgApiKeyEnv, a.apiKeyEnv);
      if a.timeoutSeconds.Some? && a.timeoutSeconds.value <= 0 then Saved(written, Err(TimeoutMessage))
      else
        var final := if a.timeoutSeconds.Some?
                     then written[CfgTimeoutSeconds := Text.IntToString(a.timeoutSeconds.value)]
                     else written;
        Saved(final, Ok(LoadSpec(final)))
  }

  /** A successful save is read back: a given provider, a given non-empty
      setting and a given timeout are what the returned configuration
      holds, and the result is what a later load returns. */
  lemma SaveThenLoad(config: map<string, string>, a: SaveArgs)
    requires SaveSpec(config, a).result.Ok?
    ensures var s := SaveSpec(config, a);
      s.result.value == LoadSpec(s.config)
      && (a.provider.Some? ==> s.result.value.provider == a.provider.value)
      && (a.model.Some? && a.model.value != "" ==> s.result.value.model == a.model.value)
      && (a.baseUrl.Some? && a.baseUrl.value != "" ==> s.result.value.baseUrl == a.baseUrl.value)
      && (a.apiKeyEnv.Some? && a.apiKeyEnv.value != "" ==> s.result.value.apiKeyEnv == a.apiKeyEnv.value)
      && (a.timeoutSeconds.Some? ==> s.result.value.timeoutSeconds == a.timeoutSeconds.value)
  {
    var s := SaveSpec(config, a);
    assert a.provider.Some? ==> s.config[CfgProvider] == a.provider.value;
    assert a.model.Some? ==> s.config[CfgModel] == a.model.value;
    assert a.baseUrl.Some? ==> s.config[CfgBaseUrl] == a.baseUrl.value;
    assert a.apiKeyEnv.Some? ==> s.config[CfgApiKeyEnv] == a.apiKeyEnv.value;
    LoadSpecMeans(s.config);
    if a.timeoutSeconds.Some? {
      assert s.config[CfgTimeoutSeconds] == Text.IntToString(a.timeoutSeconds.value);
      ParsePositiveIntRoundTrip(a.timeoutSeconds.value, DefaultTimeoutSeconds);
    }
  }

  /** An invalid provider writes nothing; a bad timeout is refused after
      the other given settings were written, and leaves the stored timeout
      as it was. */
  lemma SaveRefusals(config: map<string, string>, a: SaveArgs)
    ensures a.provider.Some? && a.provider.value !in ValidProviders ==>
      SaveSpec(config, a) == Saved(config, Err(ProviderMessage))
    ensures (a.provider.None? || a.provider.value in ValidProviders)
            && a.timeoutSeconds.Some? && a.timeoutSeconds.value <= 0 ==>
      var s := SaveSpec(config, a);
      s.result == Err(TimeoutMessage)
      && (a.model.Some? ==> CfgModel in s.config && s.config[CfgModel] == a.model.value)
      && (a.baseUrl.Some? ==> CfgBaseUrl in s.config && s.config[CfgBaseUrl] == a.baseUrl.value)
      && (a.apiKeyEnv.Some? ==> CfgApiKeyEnv in s.config && s.config[CfgApiKeyEnv] == a.apiKeyEnv.value)
      && Stored(s.config, CfgTimeoutSeconds) == Stored(config, CfgTimeoutSeconds)
  {
  }

  /** A save touches no other config key. */
  lemma SaveKeepsOtherKeys(config: map<string, string>, a: SaveArgs, key: string)
    requires key !in {CfgProvider, CfgModel, CfgBaseUrl, CfgApiKeyEnv, CfgTimeoutSeconds}
    ensures Stored(SaveSpec(config, a).config, key) == Stored(config, key)
  {
  }

  /** `save_ai_config(db, ...)`: the writes go to the config table one by
      one, so a refused timeout leaves the earlier writes in place. */
  method SaveAiConfig(db: Db.SqliteDb, a: SaveArgs) returns (r: Result<AiConfig>)
    requires db.Valid()
    modifies db
    ensures db.Valid()
    ensures db.store == old(db.store).(config := SaveSpec(old(db.store.config), a).config)
    ensures r == SaveSpec(old(db.store.config), a).result
    ensures db.txDepth == old(db.txDepth) && db.events == old(db.events) && db.snapshot == old(db.snapshot)
  {
    if a.provider.Some? {
      if a.provider.value !in ValidProviders {
        return Err(ProviderMessage);
      }
      db.SetConfig(CfgProvider, a.provider.value);
    }
    if a.model.Some? {
      db.SetConfig(CfgModel, a.model.value);
    }
    if a.baseUrl.Some? {
      db.SetConfig(CfgBaseUrl, a.baseUrl.value);
    }
    if a.apiKeyEnv.Some? {
      db.SetConfig(CfgApiKeyEnv, a.apiKeyEnv.value);
    }
    if a.timeoutSeconds.Some? {
      if a.timeoutSeconds.value <= 0 {
        return Err(TimeoutMessage);
      }
      db.SetConfig(CfgTimeoutSeconds, Text.IntToString(a.timeoutSeconds.value));
    }
    var c := LoadAiConfig(db);
    r := Ok(c);
  }

  // ---------------------------------------------------------------- runtime configuration

  /** The keyword overrides of `resolve_runtime_ai_config`. */
  datatype Overrides = Overrides(
    provider: Option<string>,
    model: Option<string>,
    baseUrl: Option<string>,
    apiKeyEnv: Option<string>,
    timeoutSeconds: Option<int>,
    apiKey: Option<string>)

  const NoOverrides: Overrides := Overrides(None, None, None, None, None, None)

  /** The provider a run uses: the override unless empty, else the stored
      one, and `local` when that is not valid. */
  function RuntimeProvider(stored: AiConfig, o: Overrides): string {
    var named := Or(o.provider, stored.provider);
    if named in ValidProviders then named else "local"
  }

  /** Whether a provider override is given that differs from the stored
      provider; then the run starts from that provider's defaults. */
  predicate Switched(stored: AiConfig, o: Overrides) {
    o.provider.Some? && o.provider.value != stored.provider
  }

  /** `resolve_runtime_ai_config`, with `os.environ` as `env`. */
  function ResolveRuntime(stored: AiConfig, o: Overrides, env: map<string, string>): (r: Result<AiConfig>) {
    var provider := RuntimeProvider(stored, o);
    var defaults := DefaultsFor(provider);
    var model := if Switched(stored, o) then Or(o.model, defaults.model) else Or(o.model, stored.model);
    var baseUrl := if Switched(stored, o) then Or(o.baseUrl, defaults.baseUrl) else Or(o.baseUrl, stored.baseUrl);
    var keyEnv := if Switched(stored, o) then o.apiKeyEnv.GetOr(defaults.apiKeyEnv)
                  else o.apiKeyEnv.GetOr(stored.apiKeyEnv);
    var timeout := if Switched(stored, o) then o.timeoutSeconds.GetOr(DefaultTimeoutSeconds)
                   else o.timeoutSeconds.GetOr(stored.timeoutSeconds);
    if timeout <= 0 then Err("timeout must be > 0")
    else
      var envName := if keyEnv == "" then DefaultApiKeyEnv else keyEnv;
      var apiKey := if o.apiKey.Some? then o.apiKey
                    else if envName in env then Some(env[envName]) else None;
      Ok(AiConfig(provider, model, baseUrl, keyEnv, timeout, apiKey))
  }

  /** A different provider override starts from that provider's defaults
      and the default timeout, each replaced by its override when one is
      given (an empty model or endpoint counts as not given, an empty key
      variable does not). */
  lemma ResolveSwitched(stored: AiConfig, o: Overrides, env: map<string, string>)
    requires Switched(stored, o)
    ensures var r := ResolveRuntime(stored, o, env);
      var d := DefaultsFor(RuntimeProvider(stored, o));
      r.Ok? <==> o.timeoutSeconds.None? || o.timeoutSeconds.value > 0
    ensures var r := ResolveRuntime(stored, o, env);
      var d := DefaultsFor(RuntimeProvider(stored, o));
      r.Ok? ==>
        r.value.model == (if o.model.Some? && o.model.value != "" then o.model.value else d.model)
        && r.value.baseUrl == (if o.baseUrl.Some? && o.baseUrl.value != "" then o.baseUrl.value else d.baseUrl)
        && r.value.apiKeyEnv == (if o.apiKeyEnv.Some? then o.apiKeyEnv.value else d.apiKeyEnv)
        && r.value.timeoutSeconds == (if o.timeoutSeconds.Some? then o.timeoutSeconds.value else DefaultTimeoutSeconds)
  {
  }

  /** Without a different provider, every setting is the stored one unless
      overridden, and a stored timeout that is not positive is refused
      unless overridden by a positive one. */
  lemma ResolveKept(stored: AiConfig, o: Overrides, env: map<string, string>)
    requires !Switched(stored, o)
    ensures var r := ResolveRuntime(stored, o, env);
      r.Ok? <==> o.timeoutSeconds.GetOr(stored.timeoutSeconds) > 0
    ensures var r := ResolveRuntime(stored, o, env);
      r.Ok? ==>
        r.value.model == (if o.model.Some? && o.model.value != "" then o.model.value else stored.model)
        && r.value.baseUrl == (if o.baseUrl.Some? && o.baseUrl.value != "" then o.baseUrl.value else stored.baseUrl)
        && r.value.apiKeyEnv == o.apiKeyEnv.GetOr(stored.apiKeyEnv)
        && r.value.timeoutSeconds == o.timeoutSeconds.GetOr(stored.timeoutSeconds)
  {
  }

  /** A provider override is used when valid and `local` replaces an
      invalid one; an explicit key, even an empty one, beats the
      environment, which is read at the key variable or, when that is
      empty, at the default one. */
  lemma ResolveProviderAndKey(stored: AiConfig, o: Overrides, env: map<string, string>)
    requires ResolveRuntime(stored, o, env).Ok?
    ensures var c := ResolveRuntime(stored, o, env).value;
      c.provider in ValidProviders
      && (o.provider.Some? && o.provider.value in ValidProviders ==> c.provider == o.provider.value)
      && (o.apiKey.Some? ==> c.apiKey == o.apiKey)
      && (o.apiKey.None? ==>
            var envName := if c.apiKeyEnv == "" then DefaultApiKeyEnv else c.apiKeyEnv;
            c.apiKey == (if envName in env then Some(env[envName]) else None))
  {
    assert "" !in ValidProviders;
  }

  /** Without overrides, what a load returns is resolved to itself, with
      the key read from the environment. */
  lemma ResolveLoadedWithoutOverrides(config: map<string, string>, env: map<string, string>)
    ensures var c := LoadSpec(config);
      ResolveRuntime(c, NoOverrides, env)
      == Ok(c.(apiKey := if c.apiKeyEnv == "" then (if DefaultApiKeyEnv in env then Some(env[DefaultApiKeyEnv]) else None)
                         else if c.apiKeyEnv in env then Some(env[c.apiKeyEnv]) else None))
  {
    LoadSpecMeans(config);
  }

  // ---------------------------------------------------------------- deck selection

  /** `_matches_deck_or_subdeck`: the deck itself or a deck below it; no
      glob patterns here. */
  predicate MatchesDeckOrSubdeck(deckName: string, target: string) {
    deckName == target || Text.StartsWith(deckName, target + "::")
  }

  predicate UnderSomeTarget(deck: Json, targets: seq<string>) {
    exists i :: 0 <= i < |targets| && MatchesDeckOrSubdeck(TaskSelection.DeckName(deck), targets[i])
  }

  /** The decks under some target, in their order. */
  function DecksUnder(decks: seq<Json>, targets: seq<string>): (r: seq<Json>)
    ensures forall d :: d in r <==> d in decks && UnderSomeTarget(d, targets)
    ensures Glob.IsSubsequence(r, decks)
    decreases |decks|
  {
    if |decks| == 0 then []
    else
      var rest := DecksUnder(decks[1..], targets);
      forall d ensures d in decks <==> d == decks[0] || d in decks[1..] {
        Seqs.InHeadOrTail(decks, d);
      }
      if UnderSomeTarget(decks[0], targets) then [decks[0]] + rest
      else
        TaskSelection.SubsequenceSkip(rest, decks);
        rest
  }

  /** `select_decks_with_subdecks`: every deck when no non-blank name is
      requested, else the decks named or lying below a named deck. */
  function SelectDecksWithSubdecks(decks: seq<Json>, includeDecks: Option<seq<string>>): (r: seq<Json>)
    ensures |TaskSelection.Targets(includeDecks)| == 0 ==> r == decks
    ensures |TaskSelection.Targets(includeDecks)| > 0 ==>
      (forall d :: d in r <==> d in decks && UnderSomeTarget(d, TaskSelection.Targets(includeDecks)))
      && Glob.IsSubsequence(r, decks)
  {
    var targets := TaskSelection.Targets(includeDecks);
    if |targets| == 0 then decks else DecksUnder(decks, targets)
  }

  /** Selection is closed downwards: a deck below a selected deck is
      selected too. */
  lemma SubdeckOfSelectedIsSelected(decks: seq<Json>, includeDecks: Option<seq<string>>, parent: Json, child: Json)
    requires parent in SelectDecksWithSubdecks(decks, includeDecks)
    requires child in decks
    requires Text.StartsWith(TaskSelection.DeckName(child), TaskSelection.DeckName(parent) + "::")
    ensures child in SelectDecksWithSubdecks(decks, includeDecks)
  {
    var targets := TaskSelection.Targets(includeDecks);
    if |targets| > 0 {
      var i :| 0 <= i < |targets| && MatchesDeckOrSubdeck(TaskSelection.DeckName(parent), targets[i]);
      var c := TaskSelection.DeckName(child);
      var pn := TaskSelection.DeckName(parent);
      if pn != targets[i] {
        StartsWithBelow(c, pn, targets[i]);
      }
      assert MatchesDeckOrSubdeck(c, targets[i]);
    }
  }

  lemma StartsWithBelow(c: string, parent: string, target: string)
    requires Text.StartsWith(c, parent + "::") && Text.StartsWith(parent, target + "::")
    ensures Text.StartsWith(c, target + "::")
  {
    var t := target + "::";
    assert c[..|t|] == (parent + "::")[..|t|] == parent[..|t|] == t;
  }

  // ---------------------------------------------------------------- notes

  /** The parts of `PromptConfig` the run reads; the prompt text, model and
      temperature only reach the editor. */
  datatype PromptConfig = PromptConfig(
    name: string,
    noteTypes: seq<string>,
    targetFields: seq<string>,
    sendFields: seq<string>)

  /** `PromptConfig.matches_note_type`. */
  predicate MatchesNoteType(p: PromptConfig, noteType: string) {
    Glob.AnyMatch(noteType, p.noteTypes)
  }

  /** A note the run will send to the editor: its key and type, its fields
      dict, the string-valued fields, the fields it may write and the fields
      it sends. */
  datatype NoteTask = NoteTask(
    noteKey: string,
    noteType: string,
    fields: seq<(string, Json)>,
    stringFields: seq<(string, string)>,
    targets: seq<string>,
    send: seq<string>)

  /** What the walk makes of one entry of a deck's notes list. */
  datatype Prep =
    | NotNote                 // not a dict: not counted
    | MissingKey              // counted, warned about, skipped
    | Ignored                 // counted, silently skipped
    | Ready(task: NoteTask)   // counted and prompted

  /** The checks of the note walk, shared by both runners; `stripKey` says
      whether the key is stored stripped. */
  function Prepare(note: Json, p: PromptConfig, stripKey: bool): (r: Prep)
    ensures r.NotNote? <==> !note.JObj?
  {
    if !note.JObj? then NotNote
    else match Get(note, "note_key")
      case Some(JStr(k)) =>
        if Text.Strip(k) == [] then MissingKey
        else PrepareTyped(note, p, if stripKey then Text.Strip(k) else k)
      case _ => MissingKey
  }

  function PrepareTyped(note: Json, p: PromptConfig, key: string): Prep {
    var noteType := StrOr(note, "note_type", "");
    if !MatchesNoteType(p, noteType) then Ignored
    else match Get(note, "fields")
      case Some(JObj(fields)) =>
        var stringFields := TaskSelection.StringFields(fields);
        var names := Seqs.Firsts(stringFields);
        var targets := Glob.SelectNames(names, p.targetFields);
        if |stringFields| == 0 || |targets| == 0 then Ignored
        else
          var send := TaskSelection.MergeFrom(Glob.SelectNames(names, p.sendFields), targets);
          Ready(NoteTask(key, noteType, fields, stringFields, targets, send))
      case _ => Ignored
  }

  /** Whether a note carries a non-blank string key. */
  predicate HasKey(note: Json) {
    GetStr(note, "note_key").Some? && Text.Strip(GetStr(note, "note_key").value) != []
  }

  /** The string-valued fields of a note's fields dict; none without one. */
  function NoteStringFields(note: Json): seq<(string, string)> {
    match Get(note, "fields")
    case Some(JObj(fields)) => TaskSelection.StringFields(fields)
    case _ => []
  }

  /** A note is prompted exactly when it is a dict with a non-blank string
      key, a type some pattern matches, a fields dict, and a string field
      some target pattern matches. */
  lemma PrepareReadyIff(note: Json, p: PromptConfig, stripKey: bool)
    ensures Prepare(note, p, stripKey).Ready? <==>
      note.JObj? && HasKey(note) && MatchesNoteType(p, StrOr(note, "note_type", ""))
      && exists f :: f in Seqs.Firsts(NoteStringFields(note)) && Glob.AnyMatch(f, p.targetFields)
  {
    if note.JObj? && HasKey(note) && MatchesNoteType(p, StrOr(note, "note_type", ""))
       && Get(note, "fields").Some? && Get(note, "fields").value.JObj? {
      var k := GetStr(note, "note_key").value;
      var key := if stripKey then Text.Strip(k) else k;
      assert Prepare(note, p, stripKey) == PrepareTyped(note, p, key);
      var names := Seqs.Firsts(NoteStringFields(note));
      var targets := Glob.SelectNames(names, p.targetFields);
      if |targets| > 0 {
        assert targets[0] in targets;
      }
      if exists f :: f in names && Glob.AnyMatch(f, p.targetFields) {
        var f :| f in names && Glob.AnyMatch(f, p.targetFields);
        assert f in targets;
      }
    }
  }

  /** A prompted note's task: the key (stripped when asked), the type, the
      fields dict; its targets are exactly the string fields a target
      pattern matches, every target is sent, and the sent fields start with
      the string fields the send patterns match. */
  lemma PrepareTask(note: Json, p: PromptConfig, stripKey: bool)
    requires Prepare(note, p, stripKey).Ready?
    ensures var t := Prepare(note, p, stripKey).task;
      var k := GetStr(note, "note_key").value;
      var names := Seqs.Firsts(t.stringFields);
      t.noteKey == (if stripKey then Text.Strip(k) else k)
      && t.noteType == StrOr(note, "note_type", "")
      && Get(note, "fields") == Some(JObj(t.fields))
      && t.stringFields == TaskSelection.StringFields(t.fields)
      && |t.targets| > 0
      && (forall f :: f in t.targets <==> f in names && Glob.AnyMatch(f, p.targetFields))
      && (forall f :: f in t.send <==> f in t.targets || (f in names && Glob.AnyMatch(f, p.sendFields)))
      && t.send[..|Glob.SelectNames(names, p.sendFields)|] == Glob.SelectNames(names, p.sendFields)
  {
    var k := GetStr(note, "note_key").value;
    var key := if stripKey then Text.Strip(k) else k;
    assert Prepare(note, p, stripKey) == PrepareTyped(note, p, key);
    var fields := Get(note, "fields").value.members;
    var sf := TaskSelection.StringFields(fields);
    var names := Seqs.Firsts(sf);
    var targets := Glob.SelectNames(names, p.targetFields);
    var send := TaskSelection.MergeFrom(Glob.SelectNames(names, p.sendFields), targets);
    assert PrepareTyped(note, p, key)
        == Ready(NoteTask(key, StrOr(note, "note_type", ""), fields, sf, targets, send));
  }

  /** `LookupStr` on a name that is present finds one of the pairs. */
  lemma {:induction false} LookupStrIn(fields: seq<(string, string)>, name: string)
    requires name in Seqs.Firsts(fields)
    ensures (name, TaskSelection.LookupStr(fields, name)) in fields
    decreases |fields|
  {
    if fields[0].0 != name {
      var i :| 0 <= i < |fields| && Seqs.Firsts(fields)[i] == name;
      assert Seqs.Firsts(fields[1..])[i - 1] == name;
      LookupStrIn(fields[1..], name);
    }
  }

  /** The note sent to the editor (`InlineNotePayload`, or the dict with
      the same three members). */
  datatype NotePayload = NotePayload(noteKey: string, noteType: string, fields: seq<(string, string)>)

  /** The payload: the note's key and type and each sent field with its
      text, in the sent order. */
  function PayloadOf(t: NoteTask): (r: NotePayload)
    ensures r.noteKey == t.noteKey && r.noteType == t.noteType
    ensures Seqs.Firsts(r.fields) == t.send
  {
    var send := t.send;
    NotePayload(t.noteKey, t.noteType,
      seq(|send|, i requires 0 <= i < |send| => (send[i], TaskSelection.LookupStr(t.stringFields, send[i]))))
  }

  /** Every value sent is the note's own text for that field. */
  lemma PayloadTexts(note: Json, p: PromptConfig, stripKey: bool)
    requires Prepare(note, p, stripKey).Ready?
    ensures var t := Prepare(note, p, stripKey).task;
      forall i :: 0 <= i < |PayloadOf(t).fields| ==> PayloadOf(t).fields[i] in t.stringFields
  {
    var t := Prepare(note, p, stripKey).task;
    PrepareTask(note, p, stripKey);
    forall i | 0 <= i < |PayloadOf(t).fields|
      ensures PayloadOf(t).fields[i] in t.stringFields
    {
      assert t.send[i] in t.send;
      LookupStrIn(t.stringFields, t.send[i]);
    }
  }

  // ---------------------------------------------------------------- answers

  /** What `editor.edit_note` did with a payload: raised, or returned a value. */
  datatype EditorAnswer = Raised(message: string) | Returned(edited: Json)

  predicate IsStr(v: Option<Json>) {
    v.Some? && v.value.JStr?
  }

  /** The sent fields an edited fields dict lacks or holds a non-string for,
      in the sent order. */
  function BadFields(send: seq<string>, edited: seq<(string, Json)>): (r: seq<string>)
    ensures forall f :: f in r <==> f in send && !IsStr(Lookup(edited, f))
    decreases |send|
  {
    if |send| == 0 then []
    else
      var rest := BadFields(send[1..], edited);
      forall f ensures f in send <==> f == send[0] || f in send[1..] {
        Seqs.InHeadOrTail(send, f);
      }
      if IsStr(Lookup(edited, send[0])) then rest else [send[0]] + rest
  }

  /** The checks `run_inline_prompt_on_serialized_collection` makes of an
      answer: the edited fields dict, or the text of the warning. */
  function Review(t: NoteTask, answer: EditorAnswer): Result<seq<(string, Json)>> {
    match answer
    case Raised(message) => Err(message)
    case Returned(edited) =>
      if !edited.JObj? then Err("response is not a JSON object")
      else if Get(edited, "note_key") != Some(JStr(t.noteKey)) then Err("response note_key mismatch")
      else match Get(edited, "fields")
        case Some(JObj(fields)) =>
          var bad := BadFields(t.send, fields);
          if |bad| > 0 then Err("response fields invalid: " + Text.Join(bad, ", ")) else Ok(fields)
        case _ => Err("response missing fields object")
  }

  /** An answer is accepted exactly when it is a dict with the note's own
      key and a fields dict holding a string for every sent field. */
  lemma ReviewAccepts(t: NoteTask, answer: EditorAnswer)
    ensures Review(t, answer).Ok? <==>
      answer.Returned? && answer.edited.JObj?
      && Get(answer.edited, "note_key") == Some(JStr(t.noteKey))
      && Get(answer.edited, "fields").Some? && Get(answer.edited, "fields").value.JObj?
      && forall f :: f in t.send ==> IsStr(Lookup(Get(answer.edited, "fields").value.members, f))
    ensures Review(t, answer).Ok? ==> Some(JObj(Review(t, answer).value)) == Get(answer.edited, "fields")
  {
    if answer.Returned? && answer.edited.JObj? && Get(answer.edited, "fields").Some?
       && Get(answer.edited, "fields").value.JObj? {
      var bad := BadFields(t.send, Get(answer.edited, "fields").value.members);
      if |bad| > 0 {
        assert bad[0] in bad;
      }
    }
  }

  // ---------------------------------------------------------------- changes

  /** `PromptChange`: one field a prompt run rewrote. */
  datatype PromptChange = PromptChange(
    promptName: string,
    deckName: string,
    noteKey: string,
    noteType: string,
    fieldName: string,
    originalText: string,
    editedText: string)

  /** The text an accepted answer holds for a field. */
  function EditedText(edited: seq<(string, Json)>, name: string): string {
    match Lookup(edited, name)
    case Some(JStr(s)) => s
    case _ => ""
  }

  /** The changes the loop over `names` records: one per field whose edited
      text differs from its original, in order. */
  function ChangesOver(promptName: string, deckName: string, t: NoteTask, edited: seq<(string, Json)>,
                       names: seq<string>): (r: seq<PromptChange>)
    ensures |r| <= |names|
    ensures forall c :: c in r ==>
      c.fieldName in names && c.promptName == promptName && c.deckName == deckName
      && c.noteKey == t.noteKey && c.noteType == t.noteType
      && c.originalText == TaskSelection.LookupStr(t.stringFields, c.fieldName)
      && c.editedText == EditedText(edited, c.fieldName)
      && c.originalText != c.editedText
    ensures forall f :: f in names && EditedText(edited, f) != TaskSelection.LookupStr(t.stringFields, f) ==>
      exists c :: c in r && c.fieldName == f
    decreases |names|
  {
    if |names| == 0 then []
    else
      var n := |names| - 1;
      var rest := ChangesOver(promptName, deckName, t, edited, names[..n]);
      var f := names[n];
      var original := TaskSelection.LookupStr(t.stringFields, f);
      var text := EditedText(edited, f);
      forall g ensures g in names <==> g in names[..n] || g == f {
        assert names == names[..n] + [f];
      }
      if text == original then rest
      else
        var c := PromptChange(promptName, deckName, t.noteKey, t.noteType, f, original, text);
        assert c in rest + [c];
        rest + [c]
  }

  /** The note's fields dict after the changes are written in order. */
  function Written(fields: seq<(string, Json)>, changes: seq<PromptChange>): seq<(string, Json)>
    decreases |changes|
  {
    if |changes| == 0 then fields
    else
      var n := |changes| - 1;
      Set(Written(fields, changes[..n]), changes[n].fieldName, JStr(changes[n].editedText))
  }

  /** Writing the changes of one answer leaves each changed field holding
      its edited text and every other field as it was. */
  lemma {:induction false} WrittenMeans(fields: seq<(string, Json)>, changes: seq<PromptChange>,
                                        edited: seq<(string, Json)>)
    requires forall c :: c in changes ==> c.editedText == EditedText(edited, c.fieldName)
    ensures forall c :: c in changes ==> Lookup(Written(fields, changes), c.fieldName) == Some(JStr(c.editedText))
    ensures forall g :: (forall c :: c in changes ==> c.fieldName != g) ==>
      Lookup(Written(fields, changes), g) == Lookup(fields, g)
    decreases |changes|
  {
    if |changes| > 0 {
      var n := |changes| - 1;
      var prefix := changes[..n];
      assert changes == prefix + [changes[n]];
      assert forall c :: c in changes <==> c in prefix || c == changes[n];
      WrittenMeans(fields, prefix, edited);
      var w := Written(fields, prefix);
      assert Written(fields, changes) == Set(w, changes[n].fieldName, JStr(changes[n].editedText));
    }
  }

  // ---------------------------------------------------------------- the run

  /** What one entry of a deck's notes list contributes. */
  datatype NoteOutcome = NoteOutcome(
    processed: bool,
    prompted: bool,
    warnings: seq<string>,
    changes: seq<PromptChange>,
    note: Json)

  const MissingKeyWarning: string := "/<missing-note_key>: skipped note without note_key"

  /** One pass of the note loop, with the editor as a function of the
      payload. */
  function RunNote(p: PromptConfig, editor: NotePayload -> EditorAnswer, deckName: string, note: Json): NoteOutcome {
    OutcomeOf(p, editor, deckName, note, Prepare(note, p, false))
  }

  function OutcomeOf(p: PromptConfig, editor: NotePayload -> EditorAnswer, deckName: string, note: Json,
                     prep: Prep): NoteOutcome
    requires !prep.NotNote? ==> note.JObj?
  {
    match prep
    case NotNote => NoteOutcome(false, false, [], [], note)
    case MissingKey => NoteOutcome(true, false, [deckName + MissingKeyWarning], [], note)
    case Ignored => NoteOutcome(true, false, [], [], note)
    case Ready(t) => Answered(p, deckName, note, t, Review(t, editor(PayloadOf(t))))
  }

  /** A prompted note once its answer is reviewed: a warning, or the
      changed target fields written into the note. */
  function Answered(p: PromptConfig, deckName: string, note: Json, t: NoteTask,
                    review: Result<seq<(string, Json)>>): NoteOutcome
    requires note.JObj?
  {
    match review
    case Err(message) => NoteOutcome(true, true, [deckName + "/" + t.noteKey + ": " + message], [], note)
    case Ok(edited) =>
      var changes := ChangesOver(p.name, deckName, t, edited, t.targets);
      if |changes| == 0 then NoteOutcome(true, true, [], [], note)
      else NoteOutcome(true, true, [], changes, WithMember(note, "fields", JObj(Written(t.fields, changes))))
  }

  /** `d[name] = v` on a dict value. */
  function WithMember(d: Json, name: string, v: Json): Json
    requires d.JObj?
  {
    JObj(Set(d.members, name, v))
  }

  /** `PromptRunResult`. */
  datatype PromptRunResult = PromptRunResult(
    processedDecks: nat,
    processedNotes: nat,
    promptedNotes: nat,
    changedFields: nat,
    changes: seq<PromptChange>,
    changedDecks: seq<Json>,
    warnings: seq<string>)

  const EmptyResult: PromptRunResult := PromptRunResult(0, 0, 0, 0, [], [], [])

  /** The run's tallies after one more note. */
  function AddNote(acc: PromptRunResult, o: NoteOutcome): PromptRunResult {
    acc.(processedNotes := acc.processedNotes + (if o.processed then 1 else 0),
         promptedNotes := acc.promptedNotes + (if o.prompted then 1 else 0),
         changedFields := acc.changedFields + |o.changes|,
         changes := acc.changes + o.changes,
         warnings := acc.warnings + o.warnings)
  }

  /** The note loop of one deck: the tallies and the notes list as edited. */
  function FoldNotes(p: PromptConfig, editor: NotePayload -> EditorAnswer, deckName: string,
                     acc: PromptRunResult, notes: seq<Json>): (PromptRunResult, seq<Json>)
    decreases |notes|
  {
    if |notes| == 0 then (acc, [])
    else
      var n := |notes| - 1;
      var (before, edited) := FoldNotes(p, editor, deckName, acc, notes[..n]);
      var o := RunNote(p, editor, deckName, notes[n]);
      (AddNote(before, o), edited + [o.note])
  }

  /** `deck.get("notes", [])`. */
  function NotesOf(deck: Json): Json {
    Get(deck, "notes").GetOr(JArr([]))
  }

  /** One pass of the deck loop: a deck without a notes list is skipped;
      a deck some change was written to is recorded with its edited notes. */
  function DeckStep(p: PromptConfig, editor: NotePayload -> EditorAnswer, acc: PromptRunResult, deck: Json): PromptRunResult
    requires deck.JObj?
  {
    var notes := NotesOf(deck);
    if !notes.JArr? then acc
    else
      var start := acc.(processedDecks := acc.processedDecks + 1);
      Visited(deck, start, FoldNotes(p, editor, TaskSelection.DeckName(deck), start, notes.items))
  }

  /** A visited deck's tallies; the deck with its edited notes is recorded
      when its notes added a change. */
  function Visited(deck: Json, start: PromptRunResult, walk: (PromptRunResult, seq<Json>)): PromptRunResult
    requires deck.JObj?
  {
    var after := walk.0;
    if |after.changes| > |start.changes|
    then after.(changedDecks := after.changedDecks + [WithMember(deck, "notes", JArr(walk.1))])
    else after
  }

  predicate AllObjects(decks: seq<Json>) {
    forall d :: d in decks ==> d.JObj?
  }

  function FoldDecks(p: PromptConfig, editor: NotePayload -> EditorAnswer, decks: seq<Json>): PromptRunResult
    requires AllObjects(decks)
    decreases |decks|
  {
    if |decks| == 0 then EmptyResult
    else
      var n := |decks| - 1;
      DeckStep(p, editor, FoldDecks(p, editor, decks[..n]), decks[n])
  }

  const DecksMessage: string := "serialized_data must contain 'decks' list"

  /** The serialized collection's decks, when they are a list, are dicts. */
  predicate DecksAreObjects(data: Json) {
    match Get(data, "decks")
    case Some(JArr(decks)) => AllObjects(decks)
    case _ => true
  }

  /** `run_inline_prompt_on_serialized_collection`, on values: the input
      is left as it was and the edited decks come back in the result. */
  function RunSpec(data: Json, includeDecks: Option<seq<string>>, p: PromptConfig,
                   editor: NotePayload -> EditorAnswer): Result<PromptRunResult>
    requires DecksAreObjects(data)
  {
    match Get(data, "decks")
    case Some(JArr(decks)) => Ok(FoldDecks(p, editor, SelectDecksWithSubdecks(decks, includeDecks)))
    case _ => Err(DecksMessage)
  }

  // ---------------------------------------------------------------- the loops

  /** The body of the note loop: the checks, the editor call, and the loop
      over the target fields that writes each changed text into the note. */
  method RunNoteStep(p: PromptConfig, editor: NotePayload -> EditorAnswer, deckName: string,
                     acc: PromptRunResult, note: Json) returns (r: PromptRunResult, edited: Json)
    ensures r == AddNote(acc, RunNote(p, editor, deckName, note))
    ensures edited == RunNote(p, editor, deckName, note).note
  {
    r, edited := OutcomeStep(p, editor, deckName, acc, note, Prepare(note, p, false));
  }

  method OutcomeStep(p: PromptConfig, editor: NotePayload -> EditorAnswer, deckName: string,
                     acc: PromptRunResult, note: Json, prep: Prep) returns (r: PromptRunResult, edited: Json)
    requires !prep.NotNote? ==> note.JObj?
    ensures r == AddNote(acc, OutcomeOf(p, editor, deckName, note, prep))
    ensures edited == OutcomeOf(p, editor, deckName, note, prep).note
  {
    assert acc.changes + [] == acc.changes && acc.warnings + [] == acc.warnings;
    match prep
    case NotNote =>
      r, edited := acc, note;
    case MissingKey =>
      r, edited := acc.(processedNotes := acc.processedNotes + 1, warnings := acc.warnings + [deckName + MissingKeyWarning]), note;
    case Ignored =>
      r, edited := acc.(processedNotes := acc.processedNotes + 1), note;
    case Ready(t) =>
      r, edited := AnswerStep(p, deckName, acc, note, t, Review(t, editor(PayloadOf(t))));
  }

  /** The part of the note loop after the editor call. */
  method AnswerStep(p: PromptConfig, deckName: string, acc: PromptRunResult, note: Json, t: NoteTask,
                    review: Result<seq<(string, Json)>>) returns (r: PromptRunResult, edited: Json)
    requires note.JObj?
    ensures r == AddNote(acc, Answered(p, deckName, note, t, review))
    ensures edited == Answered(p, deckName, note, t, review).note
  {
    r := acc.(processedNotes := acc.processedNotes + 1, promptedNotes := acc.promptedNotes + 1);
    edited := note;
    assert acc.changes + [] == acc.changes && acc.warnings + [] == acc.warnings;
    if review.Err? {
      r := r.(warnings := r.warnings + [deckName + "/" + t.noteKey + ": " + review.error]);
      return;
    }
    r, edited := AcceptStep(p, deckName, r, note, t, review.value);
  }

  /** An accepted answer: the target fields it changed are written. */
  method AcceptStep(p: PromptConfig, deckName: string, base: PromptRunResult, note: Json, t: NoteTask,
                    answer: seq<(string, Json)>) returns (r: PromptRunResult, edited: Json)
    requires note.JObj?
    ensures var o := Answered(p, deckName, note, t, Ok(answer));
      r == base.(changedFields := base.changedFields + |o.changes|, changes := base.changes + o.changes)
      && edited == o.note
  {
    var changes, fields;
    r, changes, fields := WriteTargets(p, deckName, t, answer, base);
    AnsweredOk(p, deckName, note, t, answer);
    edited := note;
    if |changes| > 0 {
      edited := WithMember(note, "fields", JObj(fields));
    }
  }

  lemma AnsweredOk(p: PromptConfig, deckName: string, note: Json, t: NoteTask, edited: seq<(string, Json)>)
    requires note.JObj?
    ensures var changes := ChangesOver(p.name, deckName, t, edited, t.targets);
      Answered(p, deckName, note, t, Ok(edited))
      == if |changes| == 0 then NoteOutcome(true, true, [], [], note)
         else NoteOutcome(true, true, [], changes, WithMember(note, "fields", JObj(Written(t.fields, changes))))
  {
  }

  /** The loop over the target fields: each text the answer changed is
      written into the fields dict and recorded as a change. */
  method WriteTargets(p: PromptConfig, deckName: string, t: NoteTask, answer: seq<(string, Json)>,
                      base: PromptRunResult) returns (r: PromptRunResult, changes: seq<PromptChange>, fields: seq<(string, Json)>)
    ensures changes == ChangesOver(p.name, deckName, t, answer, t.targets)
    ensures fields == Written(t.fields, changes)
    ensures r == base.(changedFields := base.changedFields + |changes|, changes := base.changes + changes)
  {
    changes, fields := [], t.fields;
    var k := 0;
    while k < |t.targets|
      invariant 0 <= k <= |t.targets|
      invariant changes == ChangesOver(p.name, deckName, t, answer, t.targets[..k])
      invariant fields == Written(t.fields, changes)
    {
      var f := t.targets[k];
      var text := EditedText(answer, f);
      var original := TaskSelection.LookupStr(t.stringFields, f);
      ChangesNext(p.name, deckName, t, answer, t.targets, k);
      if text != original {
        var c := PromptChange(p.name, deckName, t.noteKey, t.noteType, f, original, text);
        WrittenNext(t.fields, changes, c);
        fields := Set(fields, f, JStr(text));
        changes := changes + [c];
      }
      k := k + 1;
    }
    assert t.targets[..k] == t.targets;
    r := base.(changedFields := base.changedFields + |changes|, changes := base.changes + changes);
  }

  lemma ChangesNext(promptName: string, deckName: string, t: NoteTask, edited: seq<(string, Json)>,
                    names: seq<string>, k: nat)
    requires k < |names|
    ensures var f := names[k];
      var original := TaskSelection.LookupStr(t.stringFields, f);
      var text := EditedText(edited, f);
      ChangesOver(promptName, deckName, t, edited, names[..k + 1])
      == ChangesOver(promptName, deckName, t, edited, names[..k])
         + (if text == original then [] else [PromptChange(promptName, deckName, t.noteKey, t.noteType, f, original, text)])
  {
    assert names[..k + 1][..k] == names[..k];
  }

  lemma WrittenNext(fields: seq<(string, Json)>, changes: seq<PromptChange>, c: PromptChange)
    ensures Written(fields, changes + [c]) == Set(Written(fields, changes), c.fieldName, JStr(c.editedText))
  {
    assert (changes + [c])[..|changes|] == changes;
  }

  /** The note loop of one deck, with `deck_changed`. */
  method RunDeckNotes(p: PromptConfig, editor: NotePayload -> EditorAnswer, deckName: string,
                      start: PromptRunResult, notes: seq<Json>) returns (r: PromptRunResult, edited: seq<Json>, changed: bool)
    ensures r == FoldNotes(p, editor, deckName, start, notes).0
    ensures edited == FoldNotes(p, editor, deckName, start, notes).1
    ensures changed <==> |r.changes| > |start.changes|
  {
    r, edited, changed := start, [], false;
    var j := 0;
    while j < |notes|
      invariant 0 <= j <= |notes|
      invariant (r, edited) == FoldNotes(p, editor, deckName, start, notes[..j])
      invariant |r.changes| >= |start.changes|
      invariant changed <==> |r.changes| > |start.changes|
    {
      assert notes[..j + 1][..j] == notes[..j];
      var o := RunNote(p, editor, deckName, notes[j]);
      var next, note := RunNoteStep(p, editor, deckName, r, notes[j]);
      if |o.changes| > 0 {
        changed := true;
      }
      r, edited := next, edited + [note];
      j := j + 1;
    }
    assert notes[..j] == notes;
  }

  /** The body of the deck loop. */
  method RunDeck(p: PromptConfig, editor: NotePayload -> EditorAnswer, acc: PromptRunResult, deck: Json)
    returns (r: PromptRunResult)
    requires deck.JObj?
    ensures r == DeckStep(p, editor, acc, deck)
  {
    r := acc;
    var notes := NotesOf(deck);
    if notes.JArr? {
      var start := acc.(processedDecks := acc.processedDecks + 1);
      var edited, deckChanged;
      r, edited, deckChanged := RunDeckNotes(p, editor, TaskSelection.DeckName(deck), start, notes.items);
      VisitedIs(deck, start, r, edited);
      if deckChanged {
        r := r.(changedDecks := r.changedDecks + [WithMember(deck, "notes", JArr(edited))]);
      }
    }
  }

  lemma VisitedIs(deck: Json, start: PromptRunResult, after: PromptRunResult, edited: seq<Json>)
    requires deck.JObj?
    ensures Visited(deck, start, (after, edited))
      == if |after.changes| > |start.changes|
         then after.(changedDecks := after.changedDecks + [WithMember(deck, "notes", JArr(edited))])
         else after
  {
  }

  lemma FoldDecksNext(p: PromptConfig, editor: NotePayload -> EditorAnswer, decks: seq<Json>, i: nat)
    requires AllObjects(decks) && i < |decks|
    ensures AllObjects(decks[..i]) && AllObjects(decks[..i + 1])
    ensures FoldDecks(p, editor, decks[..i + 1]) == DeckStep(p, editor, FoldDecks(p, editor, decks[..i]), decks[i])
  {
    assert decks[..i + 1][..i] == decks[..i];
  }

  /** The deck loop. */
  method RunDecks(p: PromptConfig, editor: NotePayload -> EditorAnswer, selected: seq<Json>)
    returns (result: PromptRunResult)
    requires AllObjects(selected)
    ensures result == FoldDecks(p, editor, selected)
  {
    result := EmptyResult;
    var i := 0;
    while i < |selected|
      invariant 0 <= i <= |selected|
      invariant result == FoldDecks(p, editor, selected[..i])
    {
      FoldDecksNext(p, editor, selected, i);
      result := RunDeck(p, editor, result, selected[i]);
      i := i + 1;
    }
    assert selected[..i] == selected;
  }

  /** `run_inline_prompt_on_serialized_collection`: the deck loop over a
      copy of the selected decks. */
  method RunInlinePrompt(data: Json, includeDecks: Option<seq<string>>, p: PromptConfig,
                         editor: NotePayload -> EditorAnswer) returns (r: Result<PromptRunResult>)
    requires DecksAreObjects(data)
    ensures r == RunSpec(data, includeDecks, p, editor)
  {
    var decks := Get(data, "decks");
    if !(decks.Some? && decks.value.JArr?) {
      return Err(DecksMessage);
    }
    var selected := SelectDecksWithSubdecks(decks.value.items, includeDecks);
    var result := RunDecks(p, editor, selected);
    return Ok(result);
  }

  // ---------------------------------------------------------------- what a run promises

  /** What every recorded change satisfies: it is this prompt's, it
      really changes the text, and its field and note type are ones the
      prompt targets. */
  predicate ChangeOk(p: PromptConfig, c: PromptChange) {
    c.promptName == p.name && c.originalText != c.editedText
    && Glob.AnyMatch(c.fieldName, p.targetFields) && MatchesNoteType(p, c.noteType)
  }

  /** One note: it is counted exactly when it is a dict and prompted
      exactly when it passes every check; it yields at most one warning,
      and a warned note gets no change; an unchanged note is left as it
      was; a note without a usable key is warned about; every change is
      well formed. */
  lemma RunNoteMeans(p: PromptConfig, editor: NotePayload -> EditorAnswer, deckName: string, note: Json)
    ensures var o := RunNote(p, editor, deckName, note);
      (o.processed <==> note.JObj?)
      && (o.prompted <==> Prepare(note, p, false).Ready?)
      && |o.warnings| <= 1
      && (|o.warnings| == 1 ==> |o.changes| == 0)
      && (Prepare(note, p, false).MissingKey? ==> o.warnings == [deckName + MissingKeyWarning])
      && (|o.changes| == 0 ==> o.note == note)
      && (forall c :: c in o.changes ==> ChangeOk(p, c) && c.deckName == deckName)
  {
    match Prepare(note, p, false)
    case Ready(t) =>
      PrepareTask(note, p, false);
      RunNoteReady(p, editor, deckName, note);
      var review := Review(t, editor(PayloadOf(t)));
      if review.Ok? {
        var changes := ChangesOver(p.name, deckName, t, review.value, t.targets);
        AnsweredOk(p, deckName, note, t, review.value);
        forall c | c in changes
          ensures ChangeOk(p, c)
        {
          assert c.fieldName in t.targets;
        }
      }
    case _ =>
  }

  /** A prompted note whose answer was accepted: the changes are exactly
      the targets whose answered text differs, each changed field holds its
      new text, every other field and every other member of the note is as
      it was. */
  lemma RunNoteWrites(p: PromptConfig, editor: NotePayload -> EditorAnswer, deckName: string, note: Json)
    requires Prepare(note, p, false).Ready?
    requires Review(Prepare(note, p, false).task, editor(PayloadOf(Prepare(note, p, false).task))).Ok?
    ensures var t := Prepare(note, p, false).task;
      var answer := Review(t, editor(PayloadOf(t))).value;
      var o := RunNote(p, editor, deckName, note);
      (forall f :: f in t.targets && EditedText(answer, f) != TaskSelection.LookupStr(t.stringFields, f) ==>
         exists c :: c in o.changes && c.fieldName == f)
      && (forall c :: c in o.changes ==> c.fieldName in t.targets && c.editedText == EditedText(answer, c.fieldName))
      && o.note.JObj?
      && (forall m :: m != "fields" ==> Get(o.note, m) == Get(note, m))
      && Get(o.note, "fields").Some? && Get(o.note, "fields").value.JObj?
      && (forall c :: c in o.changes ==> Lookup(Get(o.note, "fields").value.members, c.fieldName) == Some(JStr(c.editedText)))
      && (forall g :: (forall c :: c in o.changes ==> c.fieldName != g) ==>
            Lookup(Get(o.note, "fields").value.members, g) == Lookup(t.fields, g))
  {
    var t := Prepare(note, p, false).task;
    PrepareTask(note, p, false);
    var answer := Review(t, editor(PayloadOf(t))).value;
    RunNoteReady(p, editor, deckName, note);
    AnsweredWrites(p, deckName, note, t, answer);
  }

  lemma RunNoteReady(p: PromptConfig, editor: NotePayload -> EditorAnswer, deckName: string, note: Json)
    requires Prepare(note, p, false).Ready?
    ensures note.JObj?
    ensures var t := Prepare(note, p, false).task;
      RunNote(p, editor, deckName, note) == Answered(p, deckName, note, t, Review(t, editor(PayloadOf(t))))
  {
    var prep := Prepare(note, p, false);
    assert note.JObj?;
    var t := prep.task;
    assert RunNote(p, editor, deckName, note) == Answered(p, deckName, note, t, Review(t, editor(PayloadOf(t))));
  }

  lemma AnsweredWrites(p: PromptConfig, deckName: string, note: Json, t: NoteTask, answer: seq<(string, Json)>)
    requires note.JObj? && Get(note, "fields") == Some(JObj(t.fields))
    ensures var o := Answered(p, deckName, note, t, Ok(answer));
      (forall f :: f in t.targets && EditedText(answer, f) != TaskSelection.LookupStr(t.stringFields, f) ==>
         exists c :: c in o.changes && c.fieldName == f)
      && (forall c :: c in o.changes ==> c.fieldName in t.targets && c.editedText == EditedText(answer, c.fieldName))
      && o.note.JObj?
      && (forall m :: m != "fields" ==> Get(o.note, m) == Get(note, m))
      && Get(o.note, "fields").Some? && Get(o.note, "fields").value.JObj?
      && (forall c :: c in o.changes ==> Lookup(Get(o.note, "fields").value.members, c.fieldName) == Some(JStr(c.editedText)))
      && (forall g :: (forall c :: c in o.changes ==> c.fieldName != g) ==>
            Lookup(Get(o.note, "fields").value.members, g) == Lookup(t.fields, g))
  {
    var changes := ChangesOver(p.name, deckName, t, answer, t.targets);
    AnsweredOk(p, deckName, note, t, answer);
    WrittenMeans(t.fields, changes, answer);
    if |changes| > 0 {
      var w := Written(t.fields, changes);
      assert Answered(p, deckName, note, t, Ok(answer)).note == JObj(Set(note.members, "fields", JObj(w)));
    }
  }

  /** The tallies of a run: the field count is the number of changes, no
      more notes are prompted than counted, no more decks recorded than
      visited, and every change is well formed. */
  predicate Tallied(p: PromptConfig, r: PromptRunResult) {
    Counted(p, r) && |r.changedDecks| <= r.processedDecks
  }

  /** The tallies both runners keep while they walk the notes. */
  predicate Counted(p: PromptConfig, r: PromptRunResult) {
    r.changedFields == |r.changes|
    && r.promptedNotes <= r.processedNotes
    && forall c :: c in r.changes ==> ChangeOk(p, c)
  }

  lemma {:induction false} FoldNotesTallied(p: PromptConfig, editor: NotePayload -> EditorAnswer, deckName: string,
                                            acc: PromptRunResult, notes: seq<Json>)
    requires Tallied(p, acc)
    ensures Tallied(p, FoldNotes(p, editor, deckName, acc, notes).0)
    ensures FoldNotes(p, editor, deckName, acc, notes).0.processedDecks == acc.processedDecks
    ensures FoldNotes(p, editor, deckName, acc, notes).0.changedDecks == acc.changedDecks
    ensures |FoldNotes(p, editor, deckName, acc, notes).0.changes| >= |acc.changes|
    decreases |notes|
  {
    if |notes| > 0 {
      var n := |notes| - 1;
      FoldNotesTallied(p, editor, deckName, acc, notes[..n]);
      var before := FoldNotes(p, editor, deckName, acc, notes[..n]).0;
      var o := RunNote(p, editor, deckName, notes[n]);
      RunNoteMeans(p, editor, deckName, notes[n]);
      assert FoldNotes(p, editor, deckName, acc, notes).0 == AddNote(before, o);
      assert forall c :: c in before.changes + o.changes ==> c in before.changes || c in o.changes;
    }
  }

  lemma {:induction false} FoldDecksTallied(p: PromptConfig, editor: NotePayload -> EditorAnswer, decks: seq<Json>)
    requires AllObjects(decks)
    ensures Tallied(p, FoldDecks(p, editor, decks))
    decreases |decks|
  {
    if |decks| > 0 {
      var n := |decks| - 1;
      FoldDecksNext(p, editor, decks, n);
      assert decks[..n + 1] == decks;
      FoldDecksTallied(p, editor, decks[..n]);
      DeckStepTallied(p, editor, FoldDecks(p, editor, decks[..n]), decks[n]);
    }
  }

  lemma DeckStepTallied(p: PromptConfig, editor: NotePayload -> EditorAnswer, acc: PromptRunResult, deck: Json)
    requires deck.JObj? && Tallied(p, acc)
    ensures Tallied(p, DeckStep(p, editor, acc, deck))
  {
    var notes := NotesOf(deck);
    if notes.JArr? {
      var start := acc.(processedDecks := acc.processedDecks + 1);
      var walk := FoldNotes(p, editor, TaskSelection.DeckName(deck), start, notes.items);
      FoldNotesTallied(p, editor, TaskSelection.DeckName(deck), start, notes.items);
      VisitedIs(deck, start, walk.0, walk.1);
      assert DeckStep(p, editor, acc, deck) == Visited(deck, start, walk);
    }
  }

  /** A run that finds its decks list ends with consistent tallies; one
      that does not is refused with the source's message. */
  lemma RunTallied(data: Json, includeDecks: Option<seq<string>>, p: PromptConfig, editor: NotePayload -> EditorAnswer)
    requires DecksAreObjects(data)
    ensures RunSpec(data, includeDecks, p, editor).Ok? <==> Get(data, "decks").Some? && Get(data, "decks").value.JArr?
    ensures RunSpec(data, includeDecks, p, editor).Err? ==> RunSpec(data, includeDecks, p, editor).error == DecksMessage
    ensures RunSpec(data, includeDecks, p, editor).Ok? ==> Tallied(p, RunSpec(data, includeDecks, p, editor).value)
  {
    if Get(data, "decks").Some? && Get(data, "decks").value.JArr? {
      FoldDecksTallied(p, editor, SelectDecksWithSubdecks(Get(data, "decks").value.items, includeDecks));
    }
  }

  /** Whether the note loop changed some field of some note. */
  predicate SomeNoteChanged(p: PromptConfig, editor: NotePayload -> EditorAnswer, deckName: string, notes: seq<Json>)
    decreases |notes|
  {
    |notes| > 0 &&
    (SomeNoteChanged(p, editor, deckName, notes[..|notes| - 1])
     || |RunNote(p, editor, deckName, notes[|notes| - 1]).changes| > 0)
  }

  lemma FoldNotesNext(p: PromptConfig, editor: NotePayload -> EditorAnswer, deckName: string,
                      acc: PromptRunResult, notes: seq<Json>)
    requires |notes| > 0
    ensures FoldNotes(p, editor, deckName, acc, notes).0
         == AddNote(FoldNotes(p, editor, deckName, acc, notes[..|notes| - 1]).0,
                    RunNote(p, editor, deckName, notes[|notes| - 1]))
  {
  }

  /** A deck's note loop adds a change exactly when some note of it was
      changed; it records no deck itself. */
  lemma {:induction false} FoldNotesChangedIff(p: PromptConfig, editor: NotePayload -> EditorAnswer, deckName: string,
                                               acc: PromptRunResult, notes: seq<Json>)
    ensures var after := FoldNotes(p, editor, deckName, acc, notes).0;
      after.changedDecks == acc.changedDecks
      && |after.changes| >= |acc.changes|
      && (|after.changes| > |acc.changes| <==> SomeNoteChanged(p, editor, deckName, notes))
    decreases |notes|
  {
    if |notes| > 0 {
      var n := |notes| - 1;
      FoldNotesChangedIff(p, editor, deckName, acc, notes[..n]);
      FoldNotesNext(p, editor, deckName, acc, notes);
    }
  }

  /** Visiting a deck appends at most one record to the changed decks. */
  lemma VisitedRecords(deck: Json, start: PromptRunResult, walk: (PromptRunResult, seq<Json>))
    requires deck.JObj?
    ensures var r := Visited(deck, start, walk);
      |r.changedDecks| == |walk.0.changedDecks| + (if |walk.0.changes| > |start.changes| then 1 else 0)
      && r.changedDecks[..|walk.0.changedDecks|] == walk.0.changedDecks
  {
  }

  /** A visited deck is recorded, once and at the end, exactly when some
      field of one of its notes changed. */
  lemma DeckRecordedIff(p: PromptConfig, editor: NotePayload -> EditorAnswer, acc: PromptRunResult, deck: Json)
    requires deck.JObj?
    ensures var r := DeckStep(p, editor, acc, deck);
      var changed := NotesOf(deck).JArr? && SomeNoteChanged(p, editor, TaskSelection.DeckName(deck), NotesOf(deck).items);
      |r.changedDecks| == |acc.changedDecks| + (if changed then 1 else 0)
      && r.changedDecks[..|acc.changedDecks|] == acc.changedDecks
  {
    var notes := NotesOf(deck);
    if notes.JArr? {
      var name := TaskSelection.DeckName(deck);
      var start := acc.(processedDecks := acc.processedDecks + 1);
      var walk := FoldNotes(p, editor, name, start, notes.items);
      FoldNotesChangedIff(p, editor, name, start, notes.items);
      VisitedRecords(deck, start, walk);
      assert DeckStep(p, editor, acc, deck) == Visited(deck, start, walk);
    }
  }
}
