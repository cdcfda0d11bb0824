/** The typed values of the collection-local LLM pipeline: deck scopes,
    field-exception rules and the access they grant, request options and
    their merge, and the run summary line. */
module LlmModels {
  import opened Wrappers
  import Glob
  import Text

  datatype FieldAccess = Edit | ReadOnly | Hidden

  datatype ProviderType = OpenAI | Ollama

  /** Decks a task runs on: some include pattern matches and no exclude
      pattern does. */
  datatype DeckScope = DeckScope(includes: seq<string>, excludes: seq<string>) {
    predicate Matches(deckName: string) {
      Glob.AnyMatch(deckName, includes) && !Glob.AnyMatch(deckName, excludes)
    }
  }

  /** The scope a task gets when it names none. */
  const DefaultScope := DeckScope(["*"], [])

  /** The default scope takes every deck. */
  lemma DefaultScopeMatchesAll(deckName: string)
    ensures DefaultScope.Matches(deckName)
  {
    Glob.StarMatchesAll(deckName);
    assert Glob.Match(deckName, DefaultScope.includes[0]);
  }

  /** An exclude pattern overrides every include pattern. */
  lemma ExcludeWins(scope: DeckScope, deckName: string, k: nat)
    requires k < |scope.excludes| && Glob.Match(deckName, scope.excludes[k])
    ensures !scope.Matches(deckName)
  {
  }

  datatype FieldExceptionRule = FieldExceptionRule(noteTypes: seq<string>, readOnly: seq<string>, hidden: seq<string>) {
    predicate MatchesNoteType(noteType: string) {
      Glob.AnyMatch(noteType, noteTypes)
    }
  }

  /** Request options. The temperature is only passed along, so it is kept
      as an uninterpreted real. */
  datatype TaskRequestOptions = TaskRequestOptions(temperature: Option<real>, maxOutputTokens: Option<int>)

  /** `TaskRequestOptions.merged`: each option of the override that is set
      wins; the rest come from the base. */
  function Merged(base: TaskRequestOptions, override: TaskRequestOptions): (r: TaskRequestOptions)
    ensures override.temperature.Some? ==> r.temperature == override.temperature
    ensures override.temperature.None? ==> r.temperature == base.temperature
    ensures override.maxOutputTokens.Some? ==> r.maxOutputTokens == override.maxOutputTokens
    ensures override.maxOutputTokens.None? ==> r.maxOutputTokens == base.maxOutputTokens
  {
    TaskRequestOptions(
      if override.temperature.Some? then override.temperature else base.temperature,
      if override.maxOutputTokens.Some? then override.maxOutputTokens else base.maxOutputTokens)
  }

  /** Merging with an empty override is the identity, merging with itself
      changes nothing, and merges compose: layering three option sets in
      either grouping gives the same options. */
  lemma MergedLaws(a: TaskRequestOptions, b: TaskRequestOptions, c: TaskRequestOptions)
    ensures Merged(a, TaskRequestOptions(None, None)) == a
    ensures Merged(TaskRequestOptions(None, None), a) == a
    ensures Merged(a, a) == a
    ensures Merged(Merged(a, b), c) == Merged(a, Merged(b, c))
  {
  }

  datatype TaskConfig = TaskConfig(
    version: int,
    name: string,
    provider: string,
    prompt: string,
    decks: DeckScope,
    fieldExceptions: seq<FieldExceptionRule>,
    request: TaskRequestOptions)

  /** A provider definition. `apiKeyEnv` names the environment variable
      holding the key; the key itself is never part of the configuration. */
  datatype ProviderConfig = ProviderConfig(
    version: int,
    name: string,
    providerType: ProviderType,
    baseUrl: string,
    model: string,
    apiKeyEnv: Option<string>,
    timeoutSeconds: int,
    requestDefaults: TaskRequestOptions)

  /** Everything loaded from a collection's LLM directory: the valid
      providers and tasks by name, and an error message per rejected file. */
  datatype LlmConfigSet = LlmConfigSet(
    providersByName: map<string, ProviderConfig>,
    tasksByName: map<string, TaskConfig>,
    providerErrors: map<string, string>,
    taskErrors: map<string, string>)

  /** The access after the given rules, in order, as `field_access` loops:
      a matching read-only entry demotes only `Edit`, a matching hidden
      entry always hides. */
  function AccessAfter(rules: seq<FieldExceptionRule>, noteType: string, fieldName: string): FieldAccess
    decreases |rules|
  {
    if |rules| == 0 then Edit
    else
      var before := AccessAfter(rules[..|rules| - 1], noteType, fieldName);
      var rule := rules[|rules| - 1];
      if !rule.MatchesNoteType(noteType) then before
      else
        var demoted := if fieldName in rule.readOnly && before == Edit then ReadOnly else before;
        if fieldName in rule.hidden then Hidden else demoted
  }

  /** Some rule for this note type hides the field. */
  predicate HiddenByAny(rules: seq<FieldExceptionRule>, noteType: string, fieldName: string) {
    exists i :: 0 <= i < |rules| && rules[i].MatchesNoteType(noteType) && fieldName in rules[i].hidden
  }

  /** Some rule for this note type makes the field read-only. */
  predicate ReadOnlyByAny(rules: seq<FieldExceptionRule>, noteType: string, fieldName: string) {
    exists i :: 0 <= i < |rules| && rules[i].MatchesNoteType(noteType) && fieldName in rules[i].readOnly
  }

  /** Rule order does not matter: hidden anywhere wins, then read-only
      anywhere, else the field is editable. Rules for other note types have
      no effect. */
  lemma {:induction false} AccessClosedForm(rules: seq<FieldExceptionRule>, noteType: string, fieldName: string)
    ensures AccessAfter(rules, noteType, fieldName)
      == if HiddenByAny(rules, noteType, fieldName) then Hidden
         else if ReadOnlyByAny(rules, noteType, fieldName) then ReadOnly
         else Edit
    decreases |rules|
  {
    if |rules| > 0 {
      var n := |rules| - 1;
      var init := rules[..n];
      AccessClosedForm(init, noteType, fieldName);
      assert forall i :: 0 <= i < n ==> init[i] == rules[i];
      if HiddenByAny(rules, noteType, fieldName) {
        var i :| 0 <= i < |rules| && rules[i].MatchesNoteType(noteType) && fieldName in rules[i].hidden;
        assert i == n || HiddenByAny(init, noteType, fieldName);
      }
      if ReadOnlyByAny(rules, noteType, fieldName) {
        var i :| 0 <= i < |rules| && rules[i].MatchesNoteType(noteType) && fieldName in rules[i].readOnly;
        assert i == n || ReadOnlyByAny(init, noteType, fieldName);
      }
    }
  }

  /** `TaskConfig.field_access`. */
  method FieldAccessOf(task: TaskConfig, noteType: string, fieldName: string) returns (access: FieldAccess)
    ensures access == AccessAfter(task.fieldExceptions, noteType, fieldName)
    ensures access == Edit <==>
      !HiddenByAny(task.fieldExceptions, noteType, fieldName) && !ReadOnlyByAny(task.fieldExceptions, noteType, fieldName)
    ensures access == Hidden <==> HiddenByAny(task.fieldExceptions, noteType, fieldName)
  {
    var rules := task.fieldExceptions;
    access := Edit;
    var i := 0;
    while i < |rules|
      invariant 0 <= i <= |rules|
      invariant access == AccessAfter(rules[..i], noteType, fieldName)
    {
      assert rules[..i + 1][..i] == rules[..i];
      var rule := rules[i];
      if rule.MatchesNoteType(noteType) {
        if fieldName in rule.readOnly && access == Edit {
          access := ReadOnly;
        }
        if fieldName in rule.hidden {
          access := Hidden;
        }
      }
      i := i + 1;
    }
    assert rules[..i] == rules;
    AccessClosedForm(rules, noteType, fieldName);
  }

  // ---------------------------------------------------------------- run summary

  /** Counters of one LLM task run. */
  class TaskRunSummary {
    const taskName: string
    const providerName: string
    const providerType: ProviderType
    const model: string
    var eligible: nat
    var updated: nat
    var unchangedNotes: nat
    var skipped: nat
    var errors: nat

    constructor (taskName: string, providerName: string, providerType: ProviderType, model: string)
      ensures this.taskName == taskName && this.providerName == providerName
      ensures this.providerType == providerType && this.model == model
      ensures eligible == 0 && updated == 0 && unchangedNotes == 0 && skipped == 0 && errors == 0
    {
      this.taskName := taskName;
      this.providerName := providerName;
      this.providerType := providerType;
      this.model := model;
      eligible := 0;
      updated := 0;
      unchangedNotes := 0;
      skipped := 0;
      errors := 0;
    }

    /** `TaskRunSummary.format`. */
    function Format(): string
      reads this
    {
      FormatCounts(taskName, eligible, updated, unchangedNotes, skipped, errors)
    }
  }

  /** The listed counts: updated and unchangedNotes always, then skipped and
      errors only when non-zero. */
  function SummaryParts(updated: nat, unchangedNotes: nat, skipped: nat, errors: nat): (parts: seq<string>)
    ensures |parts| == 2 + (if skipped != 0 then 1 else 0) + (if errors != 0 then 1 else 0)
    ensures parts[0] == Text.IntToString(updated) + " updated"
    ensures parts[1] == Text.IntToString(unchangedNotes) + " unchanged"
    ensures skipped != 0 ==> parts[2] == Text.IntToString(skipped) + " skipped"
    ensures errors != 0 ==> parts[|parts| - 1] == Text.IntToString(errors) + " errors"
  {
    var base := [Text.IntToString(updated) + " updated", Text.IntToString(unchangedNotes) + " unchanged"];
    var withSkipped := if skipped != 0 then base + [Text.IntToString(skipped) + " skipped"] else base;
    if errors != 0 then withSkipped + [Text.IntToString(errors) + " errors"] else withSkipped
  }

  /** The dash the summary line evidently means: U+2014. */
  const EmDash := "—"

  /** The three characters the source file actually holds at that spot: the
      UTF-8 bytes of U+2014 read back as Windows-1252 and saved again. */
  const GarbledDash := "â€”"

  function SummaryHeader(taskName: string, eligible: nat): string {
    "LLM task '" + taskName + "': " + Text.IntToString(eligible) + " notes "
  }

  function FormatWithDash(dash: string, taskName: string, eligible: nat, updated: nat, unchangedNotes: nat,
                          skipped: nat, errors: nat): (r: string)
    ensures Text.StartsWith(r, SummaryHeader(taskName, eligible) + dash + " ")
  {
    var head := SummaryHeader(taskName, eligible) + dash + " ";
    var r := head + Text.Join(SummaryParts(updated, unchangedNotes, skipped, errors), ", ");
    assert r[..|head|] == head;
    r
  }

  /** The summary line as the source spells it. */
  function FormatCountsAsWritten(taskName: string, eligible: nat, updated: nat, unchangedNotes: nat,
                                 skipped: nat, errors: nat): string {
    FormatWithDash(GarbledDash, taskName, eligible, updated, unchangedNotes, skipped, errors)
  }

  /** The summary line with the intended dash. */
  function FormatCounts(taskName: string, eligible: nat, updated: nat, unchangedNotes: nat,
                        skipped: nat, errors: nat): string {
    FormatWithDash(EmDash, taskName, eligible, updated, unchangedNotes, skipped, errors)
  }

  /** Every summary line the source prints shows `â€”` after the note
      count where a dash is meant. */
  lemma SummaryDashGarbled(taskName: string, eligible: nat, updated: nat, unchangedNotes: nat, skipped: nat, errors: nat)
    ensures var k := |SummaryHeader(taskName, eligible)|;
      var asWritten := FormatCountsAsWritten(taskName, eligible, updated, unchangedNotes, skipped, errors);
      |asWritten| > k + 2 && asWritten[k..k + 3] == "â€”"
  {
    var h := SummaryHeader(taskName, eligible);
    var s := FormatCountsAsWritten(taskName, eligible, updated, unchangedNotes, skipped, errors);
    var p := h + GarbledDash + " ";
    assert s[..|p|] == p;
    assert s[|h|..|h| + 3] == p[|h|..|h| + 3];
  }

  /** The corrected line carries the em dash at the same place and differs
      from what the source prints. */
  lemma SummaryDashCorrected(taskName: string, eligible: nat, updated: nat, unchangedNotes: nat, skipped: nat, errors: nat)
    ensures var k := |SummaryHeader(taskName, eligible)|;
      var fixed := FormatCounts(taskName, eligible, updated, unchangedNotes, skipped, errors);
      |fixed| > k && fixed[k] == '—'
      && fixed != FormatCountsAsWritten(taskName, eligible, updated, unchangedNotes, skipped, errors)
  {
    var h := SummaryHeader(taskName, eligible);
    var fixed := FormatCounts(taskName, eligible, updated, unchangedNotes, skipped, errors);
    var garbled := FormatCountsAsWritten(taskName, eligible, updated, unchangedNotes, skipped, errors);
    var p := h + EmDash + " ";
    assert fixed[..|p|] == p;
    assert fixed[|h|] == p[|h|];
    SummaryDashGarbled(taskName, eligible, updated, unchangedNotes, skipped, errors);
    assert garbled[|h|] == 'â';
  }
}
