/** Loading the collection-local LLM configuration: the checks on one
    provider or task document, and the loader that turns every file into
    either a named configuration or an error message recorded under the
    file's path, without ever failing as a whole.

    A parsed YAML document is a `Json` value. A raised `LlmConfigError` is
    an `Err` carrying its message. */
module LlmConfigLoader {
  import opened Wrappers
  import opened Json
  import Text
  import Glob
  import Sorting
  import Seqs
  import opened LlmModels
  import Models

  // ---------------------------------------------------------------- scalars

  /** Python's truth value is false for the document. */
  predicate Falsy(j: Json) {
    j == JNull || j == JBool(false) || j == JNum(0) || j == JStr([]) || j == JArr([]) || j == JObj([])
  }

  /** `_read_yaml_mapping` after parsing: an empty document reads as an
      empty mapping, anything else but a mapping is refused. */
  function ReadMapping(path: string, document: Json): (r: Result<seq<(string, Json)>>)
    ensures r.Ok? <==> document.JObj? || Falsy(document)
    ensures document.JObj? ==> r == Ok(document.members)
    ensures r.Err? ==> r.error == path + ": config must be a YAML mapping"
  {
    if Falsy(document) then Ok([])
    else if document.JObj? then Ok(document.members)
    else Err(path + ": config must be a YAML mapping")
  }

  /** The integer a scalar is to `isinstance(x, int)`: Python's `bool` is a
      subclass of `int`. */
  function AsInt(j: Json): Option<int> {
    match j
    case JNum(n) => Some(n)
    case JBool(b) => Some(if b then 1 else 0)
    case _ => None
  }

  /** `mapping.get(key)`: `None` for a missing key. */
  function GetOrNull(members: seq<(string, Json)>, key: string): Json {
    Lookup(members, key).GetOr(JNull)
  }

  function NonEmptyStringMessage(path: string, key: string): string {
    path + ": '" + key + "' must be a non-empty string"
  }

  /** A string that is not blank. */
  predicate FilledStr(j: Json) {
    j.JStr? && !Text.IsBlank(j.s)
  }

  /** Stripping a non-blank string leaves a non-empty string with no
      whitespace at either end. */
  lemma StripFilled(s: string)
    requires !Text.IsBlank(s)
    ensures Text.Strip(s) != [] && Text.Trimmed(Text.Strip(s), Text.Whitespace)
  {
    Text.StripCharsTrimmed(s, Text.Whitespace);
  }

  /** `_require_str`: the stripped value of a non-blank string. */
  function RequireStr(members: seq<(string, Json)>, key: string, path: string): (r: Result<string>)
    ensures r.Ok? <==> FilledStr(GetOrNull(members, key))
    ensures r.Ok? ==>
      (r.value == Text.Strip(GetOrNull(members, key).s) && r.value != [] && Text.Trimmed(r.value, Text.Whitespace))
    ensures r.Err? ==> r.error == NonEmptyStringMessage(path, key)
  {
    var value := GetOrNull(members, key);
    if FilledStr(value) then
      StripFilled(value.s);
      Ok(Text.Strip(value.s))
    else Err(NonEmptyStringMessage(path, key))
  }

  /** `_optional_str`: like `RequireStr`, but a missing or null value is
      `None`. */
  function OptionalStr(members: seq<(string, Json)>, key: string, path: string): (r: Result<Option<string>>)
    ensures r.Ok? <==> GetOrNull(members, key) == JNull || FilledStr(GetOrNull(members, key))
    ensures r == Ok(None) <==> GetOrNull(members, key) == JNull
    ensures r.Ok? && r.value.Some? ==> r.value.value != [] && Text.Trimmed(r.value.value, Text.Whitespace)
  {
    var value := GetOrNull(members, key);
    if value == JNull then Ok(None)
    else if FilledStr(value) then
      StripFilled(value.s);
      Ok(Some(Text.Strip(value.s)))
    else Err(NonEmptyStringMessage(path, key))
  }

  /** `_require_version`: Python's `version != 1` also lets `True` through. */
  function RequireVersion(members: seq<(string, Json)>, path: string): (r: Result<int>)
    ensures r.Ok? <==> GetOrNull(members, "version") == JNum(1) || GetOrNull(members, "version") == JBool(true)
    ensures r.Ok? ==> r.value == 1
  {
    if AsInt(GetOrNull(members, "version")) == Some(1) then Ok(1)
    else Err(path + ": only version 1 configs are supported")
  }

  /** `_require_name_stem`: the configured name must be the file's stem. */
  function RequireNameStem(name: string, path: string, stem: string): (r: Result<()>)
    ensures r.Ok? <==> name == stem
  {
    if stem != name then Err(path + ": config name '" + name + "' must match file name '" + stem + "'")
    else Ok(())
  }

  // ---------------------------------------------------------------- keys

  /** Some member of the mapping has this name. */
  predicate HasName(members: seq<(string, Json)>, x: string) {
    exists i :: 0 <= i < |members| && members[i].0 == x
  }

  lemma HasNameSnoc(members: seq<(string, Json)>, x: string)
    requires |members| > 0
    ensures HasName(members, x) <==> HasName(members[..|members| - 1], x) || members[|members| - 1].0 == x
  {
    var n := |members| - 1;
    if HasName(members, x) && members[n].0 != x {
      var i :| 0 <= i < |members| && members[i].0 == x;
      assert members[..n][i].0 == x;
    }
    if HasName(members[..n], x) {
      var i :| 0 <= i < n && members[..n][i].0 == x;
      assert members[i].0 == x;
    }
  }

  /** The names outside `valid`, each once, in first-seen order. */
  function UnknownNames(members: seq<(string, Json)>, valid: set<string>): (r: seq<string>)
    ensures forall x :: x in r <==> x !in valid && HasName(members, x)
    decreases |members|
  {
    if |members| == 0 then []
    else
      var n := |members| - 1;
      var prev := UnknownNames(members[..n], valid);
      var name := members[n].0;
      HasNameEach(members);
      if name in valid || name in prev then prev else prev + [name]
  }

  lemma HasNameEach(members: seq<(string, Json)>)
    requires |members| > 0
    ensures forall x :: HasName(members, x) <==> HasName(members[..|members| - 1], x) || members[|members| - 1].0 == x
  {
    forall x {
      HasNameSnoc(members, x);
    }
  }

  /** `sorted(set(mapping.keys()) - valid)`. */
  function UnknownKeys(members: seq<(string, Json)>, valid: set<string>): (r: seq<string>)
    ensures forall x :: x in r <==> x !in valid && HasName(members, x)
    ensures |r| == 0 <==> forall i :: 0 <= i < |members| ==> members[i].0 in valid
    ensures Sorting.SortedStrings(r)
  {
    SortedUnknown(members, valid);
    Sorting.SortStrings(UnknownNames(members, valid))
  }

  lemma SortedUnknown(members: seq<(string, Json)>, valid: set<string>)
    ensures var r := Sorting.SortStrings(UnknownNames(members, valid));
      (forall x :: x in r <==> x !in valid && HasName(members, x))
      && (|r| == 0 <==> forall i :: 0 <= i < |members| ==> members[i].0 in valid)
  {
    var names := UnknownNames(members, valid);
    var r := Sorting.SortStrings(names);
    assert forall x :: x in r <==> x in multiset(names);
    if |r| == 0 {
      forall i | 0 <= i < |members| ensures members[i].0 in valid {
        assert HasName(members, members[i].0);
        assert members[i].0 !in r;
      }
    } else {
      assert r[0] in r;
    }
  }

  // ---------------------------------------------------------------- string lists

  function ItemsMessage(path: string, key: string): string {
    path + ": '" + key + "' must contain only strings"
  }

  /** The items, each stripped, or the error for an item that is not a
      non-blank string. */
  function StrItems(items: seq<Json>, key: string, path: string): Result<seq<string>>
    decreases |items|
  {
    if |items| == 0 then Ok([])
    else
      var prev := StrItems(items[..|items| - 1], key, path);
      var last := items[|items| - 1];
      if prev.Err? then prev
      else if !FilledStr(last) then Err(ItemsMessage(path, key))
      else Ok(prev.value + [Text.Strip(last.s)])
  }

  /** Every item is a non-blank string. */
  predicate AllFilled(items: seq<Json>) {
    forall i :: 0 <= i < |items| ==> FilledStr(items[i])
  }

  lemma AllFilledSnoc(items: seq<Json>)
    requires |items| > 0
    ensures AllFilled(items) <==> AllFilled(items[..|items| - 1]) && FilledStr(items[|items| - 1])
  {
    var n := |items| - 1;
    assert forall i :: 0 <= i < n ==> items[..n][i] == items[i];
  }

  /** The items parse exactly when every one is a non-blank string; then
      each result is its item stripped. */
  lemma {:induction false} StrItemsIff(items: seq<Json>, key: string, path: string)
    ensures StrItems(items, key, path).Ok? <==> AllFilled(items)
    ensures StrItems(items, key, path).Ok? ==>
      |StrItems(items, key, path).value| == |items|
      && forall i :: 0 <= i < |items| ==> StrItems(items, key, path).value[i] == Text.Strip(items[i].s)
    ensures StrItems(items, key, path).Err? ==> StrItems(items, key, path).error == ItemsMessage(path, key)
    decreases |items|
  {
    if |items| > 0 {
      var n := |items| - 1;
      var prefix := items[..n];
      StrItemsIff(prefix, key, path);
      AllFilledSnoc(items);
      var prev := StrItems(prefix, key, path);
      if prev.Ok? && FilledStr(items[n]) {
        var r := prev.value + [Text.Strip(items[n].s)];
        assert StrItems(items, key, path) == Ok(r);
        forall i | 0 <= i < |items| ensures r[i] == Text.Strip(items[i].s) {
          if i < n {
            assert prefix[i] == items[i];
          }
        }
      }
    }
  }

  /** `_parse_str_list`'s result. */
  function StrListSpec(value: Json, key: string, path: string): Result<seq<string>> {
    if !value.JArr? || |value.items| == 0 then Err(path + ": '" + key + "' must be a non-empty list of strings")
    else StrItems(value.items, key, path)
  }

  /** `_parse_optional_str_list`'s result. */
  function OptionalStrListSpec(value: Json, key: string, path: string): Result<seq<string>> {
    if value == JNull then Ok([])
    else if !value.JArr? then Err(path + ": '" + key + "' must be a list of strings")
    else StrItems(value.items, key, path)
  }

  /** A required list is a non-empty list of non-blank strings, returned
      stripped: so no entry of the result is blank. */
  lemma StrListIff(value: Json, key: string, path: string)
    ensures StrListSpec(value, key, path).Ok? <==> value.JArr? && |value.items| > 0 && AllFilled(value.items)
    ensures StrListSpec(value, key, path).Ok? ==>
      var r := StrListSpec(value, key, path).value;
      |r| == |value.items| > 0
      && forall i :: 0 <= i < |r| ==> r[i] == Text.Strip(value.items[i].s) && r[i] != []
  {
    if value.JArr? && |value.items| > 0 {
      StrItemsIff(value.items, key, path);
      forall i | 0 <= i < |value.items| && FilledStr(value.items[i]) {
        StripFilled(value.items[i].s);
      }
    }
  }

  /** An optional list is null (read as empty) or a list of non-blank
      strings. */
  lemma OptionalStrListIff(value: Json, key: string, path: string)
    ensures OptionalStrListSpec(value, key, path).Ok? <==>
      value == JNull || (value.JArr? && AllFilled(value.items))
    ensures value == JNull ==> OptionalStrListSpec(value, key, path) == Ok([])
    ensures value.JArr? && OptionalStrListSpec(value, key, path).Ok? ==>
      |OptionalStrListSpec(value, key, path).value| == |value.items|
  {
    if value.JArr? {
      StrItemsIff(value.items, key, path);
    }
  }

  /** The loop both list parsers share: append each stripped item, stop at
      the first item that is not a non-blank string. */
  method ParseItems(items: seq<Json>, key: string, path: string) returns (r: Result<seq<string>>)
    ensures r == StrItems(items, key, path)
  {
    var parsed: seq<string> := [];
    var i := 0;
    while i < |items|
      invariant 0 <= i <= |items|
      invariant StrItems(items[..i], key, path) == Ok(parsed)
    {
      Seqs.TakeTake(items, i + 1, i);
      var item := items[i];
      if !FilledStr(item) {
        StrItemsIff(items, key, path);
        return Err(ItemsMessage(path, key));
      }
      parsed := parsed + [Text.Strip(item.s)];
      i := i + 1;
    }
    Seqs.TakeAll(items);
    r := Ok(parsed);
  }

  /** `_parse_str_list`. */
  method ParseStrList(value: Json, key: string, path: string) returns (r: Result<seq<string>>)
    ensures r == StrListSpec(value, key, path)
  {
    if !value.JArr? || |value.items| == 0 {
      return Err(path + ": '" + key + "' must be a non-empty list of strings");
    }
    r := ParseItems(value.items, key, path);
  }

  /** `_parse_optional_str_list`. */
  method ParseOptionalStrList(value: Json, key: string, path: string) returns (r: Result<seq<string>>)
    ensures r == OptionalStrListSpec(value, key, path)
  {
    if value == JNull {
      return Ok([]);
    }
    if !value.JArr? {
      return Err(path + ": '" + key + "' must be a list of strings");
    }
    r := ParseItems(value.items, key, path);
  }

  // ---------------------------------------------------------------- request options and deck scope

  /** `_parse_request_options`. A temperature is kept as the real value of
      the integer it holds. */
  function RequestOptionsSpec(value: Json, path: string): Result<TaskRequestOptions> {
    if value == JNull then Ok(TaskRequestOptions(None, None))
    else if !value.JObj? then Err(path + ": request options must be a mapping")
    else
      var unknown := UnknownKeys(value.members, {"temperature", "max_output_tokens"});
      if |unknown| > 0 then Err(path + ": unknown request option(s): " + Text.Join(unknown, ", "))
      else
        var temperature := GetOrNull(value.members, "temperature");
        var maxTokens := GetOrNull(value.members, "max_output_tokens");
        if temperature != JNull && AsInt(temperature).None? then
          Err(path + ": 'temperature' must be numeric")
        else if maxTokens != JNull && (AsInt(maxTokens).None? || AsInt(maxTokens).value <= 0) then
          Err(path + ": 'max_output_tokens' must be a positive integer")
        else
          Ok(TaskRequestOptions(
            if temperature == JNull then None else Some(AsInt(temperature).value as real),
            if maxTokens == JNull then None else AsInt(maxTokens)))
  }

  /** Request options are accepted exactly when they are absent, or a
      mapping with no other keys, a numeric temperature if any and a
      positive integer token limit if any. */
  lemma RequestOptionsIff(value: Json, path: string)
    ensures RequestOptionsSpec(value, path).Ok? <==>
      value == JNull
      || (value.JObj?
          && (forall i :: 0 <= i < |value.members| ==> value.members[i].0 in {"temperature", "max_output_tokens"})
          && (GetOrNull(value.members, "temperature") == JNull || AsInt(GetOrNull(value.members, "temperature")).Some?)
          && (GetOrNull(value.members, "max_output_tokens") == JNull
              || (AsInt(GetOrNull(value.members, "max_output_tokens")).Some?
                  && AsInt(GetOrNull(value.members, "max_output_tokens")).value > 0)))
    ensures RequestOptionsSpec(value, path).Ok? ==>
      var options := RequestOptionsSpec(value, path).value;
      (options.maxOutputTokens.Some? ==> options.maxOutputTokens.value > 0)
      && (value == JNull ==> options == TaskRequestOptions(None, None))
  {
    if value.JObj? {
      var unknown := UnknownKeys(value.members, {"temperature", "max_output_tokens"});
      assert |unknown| == 0 <==>
        forall i :: 0 <= i < |value.members| ==> value.members[i].0 in {"temperature", "max_output_tokens"};
    }
  }

  /** `_parse_deck_scope`. A missing `include` means every deck, a missing
      `exclude` no exclusion; a present but null one is refused. */
  function DeckScopeSpec(value: Json, path: string): Result<DeckScope> {
    if value == JNull then Ok(DefaultScope)
    else if !value.JObj? then Err(path + ": 'decks' must be a mapping")
    else
      var unknown := UnknownKeys(value.members, {"include", "exclude"});
      if |unknown| > 0 then Err(path + ": unknown deck scope key(s): " + Text.Join(unknown, ", "))
      else
        var includeValue := Lookup(value.members, "include").GetOr(JArr([JStr("*")]));
        var excludeValue := Lookup(value.members, "exclude").GetOr(JArr([]));
        DeckLists(includeValue, excludeValue, path)
  }

  /** The two pattern lists of a scope: `include` must be a non-empty list,
      `exclude` a list. */
  function DeckLists(includeValue: Json, excludeValue: Json, path: string): Result<DeckScope> {
    if !includeValue.JArr? || |includeValue.items| == 0 then
      Err(path + ": 'decks.include' must be a non-empty list")
    else if !excludeValue.JArr? then Err(path + ": 'decks.exclude' must be a list")
    else
      var includes :- StrListSpec(includeValue, "decks.include", path);
      var excludes :- OptionalStrListSpec(excludeValue, "decks.exclude", path);
      Ok(DeckScope(includes, excludes))
  }

  lemma DeckListsAccepted(includeValue: Json, excludeValue: Json, path: string)
    requires DeckLists(includeValue, excludeValue, path).Ok?
    ensures |DeckLists(includeValue, excludeValue, path).value.includes| > 0
    ensures includeValue == JArr([JStr("*")]) ==> DeckLists(includeValue, excludeValue, path).value.includes == ["*"]
  {
    StrListIff(includeValue, "decks.include", path);
    if includeValue == JArr([JStr("*")]) {
      StrItemsStar(path);
    }
  }

  /** A parsed scope always has an include pattern; no scope means the
      default one, and a scope naming no `include` takes every deck; any key
      besides `include` and `exclude` is refused. */
  lemma DeckScopeProperties(value: Json, path: string)
    ensures DeckScopeSpec(value, path).Ok? ==> |DeckScopeSpec(value, path).value.includes| > 0
    ensures value == JNull ==> DeckScopeSpec(value, path) == Ok(DefaultScope)
    ensures value.JObj? && DeckScopeSpec(value, path).Ok? && Lookup(value.members, "include").None? ==>
      DeckScopeSpec(value, path).value.includes == ["*"]
    ensures value.JObj? && (exists i :: 0 <= i < |value.members| && value.members[i].0 !in {"include", "exclude"}) ==>
      DeckScopeSpec(value, path).Err?
  {
    if value.JObj? && DeckScopeSpec(value, path).Ok? {
      DeckListsAccepted(Lookup(value.members, "include").GetOr(JArr([JStr("*")])),
                        Lookup(value.members, "exclude").GetOr(JArr([])), path);
    }
  }

  /** The default include list parses to itself. */
  lemma StrItemsStar(path: string)
    ensures StrListSpec(JArr([JStr("*")]), "decks.include", path) == Ok(["*"])
  {
    var star := JStr("*");
    StarFilled();
    SingleItem(star, "decks.include", path);
  }

  lemma StarFilled()
    ensures FilledStr(JStr("*")) && Text.Strip("*") == "*"
  {
    TrimmedFilled("*");
  }

  /** A non-empty string with no whitespace at either end is non-blank and
      its own strip. */
  lemma TrimmedFilled(s: string)
    requires s != [] && s[0] !in Text.Whitespace && s[|s| - 1] !in Text.Whitespace
    ensures FilledStr(JStr(s)) && Text.Strip(s) == s
  {
    Text.StripUnchanged(s);
  }

  /** A one-item list of a non-blank string parses to that string stripped. */
  lemma SingleItem(x: Json, key: string, path: string)
    requires FilledStr(x)
    ensures StrListSpec(JArr([x]), key, path) == Ok([Text.Strip(x.s)])
  {
    var items := [x];
    assert items[..0] == [];
    assert StrItems(items[..0], key, path) == Ok([]);
    assert [] + [Text.Strip(x.s)] == [Text.Strip(x.s)];
    assert StrItems(items, key, path) == Ok([Text.Strip(x.s)]);
  }

  // ---------------------------------------------------------------- field exceptions

  /** The field names of each note type by name; a later type with the same
      name replaces an earlier one, as the dict comprehension does. */
  function FieldNamesByType(configs: seq<Models.NoteTypeConfig>): (r: map<string, set<string>>)
    ensures forall name :: name in r <==> exists i :: 0 <= i < |configs| && configs[i].name == name
    decreases |configs|
  {
    if |configs| == 0 then map[]
    else
      var n := |configs| - 1;
      var prev := FieldNamesByType(configs[..n]);
      assert forall i :: 0 <= i < n ==> configs[..n][i] == configs[i];
      prev[configs[n].name := set f | f in configs[n].fields :: f.name]
  }

  function TypeNames(configs: seq<Models.NoteTypeConfig>): (r: seq<string>)
    ensures |r| == |configs| && forall i :: 0 <= i < |r| ==> r[i] == configs[i].name
  {
    seq(|configs|, i requires 0 <= i < |configs| => configs[i].name)
  }

  /** The note type names some pattern matches. */
  function MatchedTypes(typeNames: seq<string>, patterns: seq<string>): set<string> {
    set i | 0 <= i < |typeNames| && Glob.AnyMatch(typeNames[i], patterns) :: typeNames[i]
  }

  /** The union of the field names of the matched types. */
  function Available(matched: set<string>, byType: map<string, set<string>>): set<string> {
    set name, f | name in matched && name in byType && f in byType[name] :: f
  }

  /** The first name not in `available`, as the check loop meets it. */
  function FirstMissing(names: seq<string>, available: set<string>): (r: Option<string>)
    ensures r.None? <==> forall i :: 0 <= i < |names| ==> names[i] in available
    ensures r.Some? ==> r.value in names && r.value !in available
    decreases |names|
  {
    if |names| == 0 then None
    else if names[0] !in available then Some(names[0])
    else
      var rest := FirstMissing(names[1..], available);
      assert forall i :: 1 <= i < |names| ==> names[i] == names[1..][i - 1];
      rest
  }

  function EntryPath(path: string, index: nat): string {
    path + "#fields.exceptions[" + Text.IntToString(index) + "]"
  }

  /** One entry of `fields.exceptions`. */
  function ExceptionRuleSpec(entry: Json, entryPath: string, typeNames: seq<string>,
                             byType: map<string, set<string>>): Result<FieldExceptionRule> {
    if !entry.JObj? then Err(entryPath + ": exception must be a mapping")
    else
      var unknown := UnknownKeys(entry.members, {"note_types", "read_only", "hidden"});
      if |unknown| > 0 then Err(entryPath + ": unknown exception key(s): " + Text.Join(unknown, ", "))
      else
        var noteTypes :- match Lookup(entry.members, "note_types")
                         case Some(v) => StrListSpec(v, "note_types", entryPath)
                         case None => Ok(["*"]);
        var readOnly :- OptionalStrListSpec(GetOrNull(entry.members, "read_only"), "read_only", entryPath);
        var hidden :- OptionalStrListSpec(GetOrNull(entry.members, "hidden"), "hidden", entryPath);
        RuleChecked(noteTypes, readOnly, hidden, entryPath, typeNames, byType)
  }

  /** The checks on an entry's lists once they are read: it declares some
      field, its patterns match a known note type, and each field it names
      exists on one of the matched types. */
  function RuleChecked(noteTypes: seq<string>, readOnly: seq<string>, hidden: seq<string>, entryPath: string,
                       typeNames: seq<string>, byType: map<string, set<string>>): Result<FieldExceptionRule>
  {
    if |readOnly| == 0 && |hidden| == 0 then
      Err(entryPath + ": exception must declare 'read_only' or 'hidden'")
    else
      var matched := MatchedTypes(typeNames, noteTypes);
      if matched == {} then
        Err(entryPath + ": note type pattern(s) match no note types: " + Text.Join(noteTypes, ", "))
      else
        match FirstMissing(readOnly + hidden, Available(matched, byType))
        case Some(f) => Err(entryPath + ": field '" + f + "' does not exist on any matched note type")
        case None => Ok(FieldExceptionRule(noteTypes, readOnly, hidden))
  }

  lemma RuleCheckedAccepted(noteTypes: seq<string>, readOnly: seq<string>, hidden: seq<string>, entryPath: string,
                            typeNames: seq<string>, byType: map<string, set<string>>)
    requires RuleChecked(noteTypes, readOnly, hidden, entryPath, typeNames, byType).Ok?
    ensures var rule := RuleChecked(noteTypes, readOnly, hidden, entryPath, typeNames, byType).value;
      rule == FieldExceptionRule(noteTypes, readOnly, hidden)
      && (|rule.readOnly| > 0 || |rule.hidden| > 0)
      && (exists i :: 0 <= i < |typeNames| && rule.MatchesNoteType(typeNames[i]))
      && forall f :: f in rule.readOnly + rule.hidden ==>
           exists name :: name in MatchedTypes(typeNames, rule.noteTypes) && name in byType && f in byType[name]
  {
    var matched := MatchedTypes(typeNames, noteTypes);
    var x :| x in matched;
    var available := Available(matched, byType);
    assert FirstMissing(readOnly + hidden, available).None?;
    forall f | f in readOnly + hidden
      ensures exists name :: name in matched && name in byType && f in byType[name]
    {
      var k :| 0 <= k < |readOnly + hidden| && (readOnly + hidden)[k] == f;
      assert f in available;
    }
  }

  /** An accepted rule declares a read-only or hidden field, its patterns
      match some known note type, and every field it names exists on one of
      the matched types. */
  lemma ExceptionRuleAccepted(entry: Json, entryPath: string, typeNames: seq<string>,
                              byType: map<string, set<string>>)
    requires ExceptionRuleSpec(entry, entryPath, typeNames, byType).Ok?
    ensures var rule := ExceptionRuleSpec(entry, entryPath, typeNames, byType).value;
      (|rule.readOnly| > 0 || |rule.hidden| > 0)
      && (exists i :: 0 <= i < |typeNames| && rule.MatchesNoteType(typeNames[i]))
      && forall f :: f in rule.readOnly + rule.hidden ==>
           exists name :: name in MatchedTypes(typeNames, rule.noteTypes) && name in byType && f in byType[name]
  {
    var noteTypes := match Lookup(entry.members, "note_types")
                     case Some(v) => StrListSpec(v, "note_types", entryPath).value
                     case None => ["*"];
    var readOnly := OptionalStrListSpec(GetOrNull(entry.members, "read_only"), "read_only", entryPath).value;
    var hidden := OptionalStrListSpec(GetOrNull(entry.members, "hidden"), "hidden", entryPath).value;
    assert ExceptionRuleSpec(entry, entryPath, typeNames, byType)
        == RuleChecked(noteTypes, readOnly, hidden, entryPath, typeNames, byType);
    RuleCheckedAccepted(noteTypes, readOnly, hidden, entryPath, typeNames, byType);
  }

  /** The values of the outcomes in order, or the first error among them:
      what a loop that appends each value and raises on the first failure
      returns. */
  function Collect<T>(outcomes: seq<Result<T>>): Result<seq<T>>
    decreases |outcomes|
  {
    if |outcomes| == 0 then Ok([])
    else
      var n := |outcomes| - 1;
      var prev := Collect(outcomes[..n]);
      if prev.Err? then prev
      else if outcomes[n].Err? then Err(outcomes[n].error)
      else Ok(prev.value + [outcomes[n].value])
  }

  /** Once a prefix fails, the whole sequence fails with the same error. */
  lemma {:induction false} CollectErrSticks<T>(outcomes: seq<Result<T>>, k: nat)
    requires k <= |outcomes| && Collect(outcomes[..k]).Err?
    ensures Collect(outcomes) == Collect(outcomes[..k])
    decreases |outcomes| - k
  {
    if k == |outcomes| {
      Seqs.TakeAll(outcomes);
    } else {
      Seqs.TakeTake(outcomes, k + 1, k);
      CollectErrSticks(outcomes, k + 1);
    }
  }

  /** A collected sequence has one value per outcome, each that outcome's. */
  lemma {:induction false} CollectAt<T>(outcomes: seq<Result<T>>)
    requires Collect(outcomes).Ok?
    ensures |Collect(outcomes).value| == |outcomes|
    ensures forall i :: 0 <= i < |outcomes| ==> outcomes[i] == Ok(Collect(outcomes).value[i])
    decreases |outcomes|
  {
    if |outcomes| > 0 {
      var n := |outcomes| - 1;
      CollectAt(outcomes[..n]);
      assert forall i :: 0 <= i < n ==> outcomes[..n][i] == outcomes[i];
    }
  }

  /** Each entry's rule, checked on its own. */
  function RuleOutcomes(entries: seq<Json>, path: string, typeNames: seq<string>,
                        byType: map<string, set<string>>): (r: seq<Result<FieldExceptionRule>>)
    ensures |r| == |entries|
    ensures forall i :: 0 <= i < |entries| ==> r[i] == ExceptionRuleSpec(entries[i], EntryPath(path, i), typeNames, byType)
  {
    seq(|entries|, i requires 0 <= i < |entries| => ExceptionRuleSpec(entries[i], EntryPath(path, i), typeNames, byType))
  }

  /** `_parse_field_exceptions`' result. */
  function FieldExceptionsSpec(value: Json, configs: seq<Models.NoteTypeConfig>, path: string)
    : Result<seq<FieldExceptionRule>>
  {
    if value == JNull then Ok([])
    else if !value.JObj? then Err(path + ": 'fields' must be a mapping")
    else
      var unknown := UnknownKeys(value.members, {"exceptions"});
      if |unknown| > 0 then Err(path + ": unknown fields config key(s): " + Text.Join(unknown, ", "))
      else
        var exceptionsValue := Lookup(value.members, "exceptions").GetOr(JArr([]));
        if !exceptionsValue.JArr? then Err(path + ": 'fields.exceptions' must be a list")
        else Collect(RuleOutcomes(exceptionsValue.items, path, TypeNames(configs), FieldNamesByType(configs)))
  }

  /** Every rule of an accepted `fields` section is the accepted rule of its
      entry, so each declares a read-only or hidden field. */
  lemma FieldExceptionsAccepted(value: Json, configs: seq<Models.NoteTypeConfig>, path: string)
    requires FieldExceptionsSpec(value, configs, path).Ok?
    ensures forall k :: 0 <= k < |FieldExceptionsSpec(value, configs, path).value| ==>
      var rule := FieldExceptionsSpec(value, configs, path).value[k];
      |rule.readOnly| > 0 || |rule.hidden| > 0
  {
    if value != JNull {
      var entries := Lookup(value.members, "exceptions").GetOr(JArr([])).items;
      var typeNames := TypeNames(configs);
      var byType := FieldNamesByType(configs);
      var outcomes := RuleOutcomes(entries, path, typeNames, byType);
      CollectAt(outcomes);
      var rules := Collect(outcomes).value;
      forall k | 0 <= k < |rules| ensures |rules[k].readOnly| > 0 || |rules[k].hidden| > 0 {
        ExceptionRuleAccepted(entries[k], EntryPath(path, k), typeNames, byType);
      }
    }
  }

  /** `_parse_field_exceptions`: the loop appends each entry's rule and stops
      at the first entry that fails. */
  method ParseFieldExceptions(value: Json, configs: seq<Models.NoteTypeConfig>, path: string)
    returns (r: Result<seq<FieldExceptionRule>>)
    ensures r == FieldExceptionsSpec(value, configs, path)
  {
    if value == JNull {
      return Ok([]);
    }
    if !value.JObj? {
      return Err(path + ": 'fields' must be a mapping");
    }
    var unknown := UnknownKeys(value.members, {"exceptions"});
    if |unknown| > 0 {
      return Err(path + ": unknown fields config key(s): " + Text.Join(unknown, ", "));
    }
    var exceptionsValue := Lookup(value.members, "exceptions").GetOr(JArr([]));
    if !exceptionsValue.JArr? {
      return Err(path + ": 'fields.exceptions' must be a list");
    }
    var entries := exceptionsValue.items;
    var typeNames := TypeNames(configs);
    var byType := FieldNamesByType(configs);
    ghost var outcomes := RuleOutcomes(entries, path, typeNames, byType);
    var parsed: seq<FieldExceptionRule> := [];
    var index := 0;
    while index < |entries|
      invariant 0 <= index <= |entries|
      invariant Collect(outcomes[..index]) == Ok(parsed)
    {
      Seqs.TakeTake(outcomes, index + 1, index);
      var rule := ExceptionRuleSpec(entries[index], EntryPath(path, index), typeNames, byType);
      assert outcomes[..index + 1][index] == rule;
      if rule.Err? {
        CollectErrSticks(outcomes, index + 1);
        return Err(rule.error);
      }
      parsed := parsed + [rule.value];
      index := index + 1;
    }
    Seqs.TakeAll(outcomes);
    r := Ok(parsed);
  }

  // ---------------------------------------------------------------- documents

  /** The checks both kinds of file start with: version 1, a non-blank name,
      and that name equal to the file's stem. */
  function Header(mapping: seq<(string, Json)>, path: string, stem: string): (r: Result<(int, string)>)
    ensures r.Ok? ==> r.value.0 == 1 && r.value.1 == stem && r.value.1 != []
  {
    var version :- RequireVersion(mapping, path);
    var name :- RequireStr(mapping, "name", path);
    var stemMatches :- RequireNameStem(name, path, stem);
    Ok((version, name))
  }

  function ProviderTypeOf(raw: string): Option<ProviderType> {
    if raw == "openai" then Some(OpenAI)
    else if raw == "ollama" then Some(Ollama)
    else None
  }

  /** `_parse_provider` on a parsed document, with the environment as a map.
      A variable set to the empty string counts as unset. */
  function ProviderSpec(path: string, stem: string, document: Json, env: map<string, string>)
    : Result<ProviderConfig>
  {
    var mapping :- ReadMapping(path, document);
    var header :- Header(mapping, path, stem);
    ProviderBody(mapping, path, header.0, header.1, env)
  }

  /** The provider's checks after its header. */
  function ProviderBody(mapping: seq<(string, Json)>, path: string, version: int, name: string,
                        env: map<string, string>): Result<ProviderConfig>
  {
    var typeRaw :- RequireStr(mapping, "type", path);
    var providerType :- match ProviderTypeOf(typeRaw)
                        case Some(t) => Ok(t)
                        case None => Err(path + ": unsupported provider type '" + typeRaw + "'");
    var baseUrl :- RequireStr(mapping, "base_url", path);
    var model :- RequireStr(mapping, "model", path);
    var apiKeyEnv :- OptionalStr(mapping, "api_key_env", path);
    ProviderLimits(mapping, path, ProviderConfig(version, name, providerType, Text.RStrip(baseUrl, {'/'}),
                                                 model, apiKeyEnv, 60, TaskRequestOptions(None, None)), env)
  }

  /** The timeout, the request defaults and the key variable, checked in
      that order and filled into the provider read so far. */
  function ProviderLimits(mapping: seq<(string, Json)>, path: string, read: ProviderConfig,
                          env: map<string, string>): Result<ProviderConfig>
  {
    var timeout := Lookup(mapping, "timeout_seconds").GetOr(JNum(60));
    if AsInt(timeout).None? || AsInt(timeout).value <= 0 then
      Err(path + ": 'timeout_seconds' must be a positive integer")
    else
      var requestDefaults :- RequestOptionsSpec(GetOrNull(mapping, "request_defaults"), path);
      if read.providerType == OpenAI && read.apiKeyEnv.None? then
        Err(path + ": openai provider requires 'api_key_env'")
      else if read.apiKeyEnv.Some? && (read.apiKeyEnv.value !in env || env[read.apiKeyEnv.value] == "") then
        Err(path + ": required environment variable '" + read.apiKeyEnv.value + "' is not set")
      else
        Ok(read.(timeoutSeconds := AsInt(timeout).value, requestDefaults := requestDefaults))
  }

  /** An accepted provider is version 1, named after its file, has a
      positive timeout and a positive token limit if any, and an OpenAI
      provider names a key variable that is set. */
  lemma ProviderAccepted(path: string, stem: string, document: Json, env: map<string, string>)
    requires ProviderSpec(path, stem, document, env).Ok?
    ensures var p := ProviderSpec(path, stem, document, env).value;
      p.version == 1 && p.name == stem && p.name != [] && p.timeoutSeconds > 0
      && (p.providerType == OpenAI ==> p.apiKeyEnv.Some?)
      && (p.apiKeyEnv.Some? ==> p.apiKeyEnv.value in env && env[p.apiKeyEnv.value] != "")
      && (p.requestDefaults.maxOutputTokens.Some? ==> p.requestDefaults.maxOutputTokens.value > 0)
  {
    var mapping := ReadMapping(path, document).value;
    var header := Header(mapping, path, stem).value;
    ProviderBodyAccepted(mapping, path, header.0, header.1, env);
  }

  lemma ProviderBodyAccepted(mapping: seq<(string, Json)>, path: string, version: int, name: string,
                             env: map<string, string>)
    requires ProviderBody(mapping, path, version, name, env).Ok?
    ensures var p := ProviderBody(mapping, path, version, name, env).value;
      p.version == version && p.name == name && p.timeoutSeconds > 0
      && (p.providerType == OpenAI ==> p.apiKeyEnv.Some?)
      && (p.apiKeyEnv.Some? ==> p.apiKeyEnv.value in env && env[p.apiKeyEnv.value] != "")
      && (p.requestDefaults.maxOutputTokens.Some? ==> p.requestDefaults.maxOutputTokens.value > 0)
  {
    var typeRaw := RequireStr(mapping, "type", path).value;
    var read := ProviderConfig(version, name, ProviderTypeOf(typeRaw).value,
                               Text.RStrip(RequireStr(mapping, "base_url", path).value, {'/'}),
                               RequireStr(mapping, "model", path).value,
                               OptionalStr(mapping, "api_key_env", path).value, 60, TaskRequestOptions(None, None));
    assert ProviderBody(mapping, path, version, name, env) == ProviderLimits(mapping, path, read, env);
    ProviderLimitsAccepted(mapping, path, read, env);
  }

  lemma ProviderLimitsAccepted(mapping: seq<(string, Json)>, path: string, read: ProviderConfig,
                               env: map<string, string>)
    requires ProviderLimits(mapping, path, read, env).Ok?
    ensures var p := ProviderLimits(mapping, path, read, env).value;
      p.(timeoutSeconds := read.timeoutSeconds, requestDefaults := read.requestDefaults) == read
      && p.timeoutSeconds > 0
      && (p.providerType == OpenAI ==> p.apiKeyEnv.Some?)
      && (p.apiKeyEnv.Some? ==> p.apiKeyEnv.value in env && env[p.apiKeyEnv.value] != "")
      && (p.requestDefaults.maxOutputTokens.Some? ==> p.requestDefaults.maxOutputTokens.value > 0)
  {
    RequestOptionsIff(GetOrNull(mapping, "request_defaults"), path);
  }

  const TaskKeys := {"version", "name", "provider", "decks", "prompt", "fields", "request"}

  /** `_parse_task` on a parsed document. Unknown top-level keys are only
      reported once everything else has parsed. */
  function TaskSpec(path: string, stem: string, document: Json, configs: seq<Models.NoteTypeConfig>)
    : Result<TaskConfig>
  {
    var mapping :- ReadMapping(path, document);
    var header :- Header(mapping, path, stem);
    TaskBody(mapping, path, header.0, header.1, configs)
  }

  /** The task's checks after its header. */
  function TaskBody(mapping: seq<(string, Json)>, path: string, version: int, name: string,
                    configs: seq<Models.NoteTypeConfig>): Result<TaskConfig>
  {
    var provider :- RequireStr(mapping, "provider", path);
    var prompt :- RequireStr(mapping, "prompt", path);
    var decks :- DeckScopeSpec(GetOrNull(mapping, "decks"), path);
    TaskRest(mapping, path, TaskConfig(version, name, provider, prompt, decks, [], TaskRequestOptions(None, None)),
             configs)
  }

  /** The field rules, the request options and the unknown keys, checked
      in that order and filled into the task read so far. */
  function TaskRest(mapping: seq<(string, Json)>, path: string, read: TaskConfig,
                    configs: seq<Models.NoteTypeConfig>): Result<TaskConfig>
  {
    var fieldExceptions :- FieldExceptionsSpec(GetOrNull(mapping, "fields"), configs, path);
    var request :- RequestOptionsSpec(GetOrNull(mapping, "request"), path);
    var unknown := UnknownKeys(mapping, TaskKeys);
    if |unknown| > 0 then Err(path + ": unknown task key(s): " + Text.Join(unknown, ", "))
    else Ok(read.(fieldExceptions := fieldExceptions, request := request))
  }

  /** An accepted task is version 1, named after its file, names a provider
      and a prompt, has only known keys, includes some deck pattern, and
      each of its field rules declares a read-only or hidden field. */
  lemma TaskAccepted(path: string, stem: string, document: Json, configs: seq<Models.NoteTypeConfig>)
    requires TaskSpec(path, stem, document, configs).Ok?
    ensures var t := TaskSpec(path, stem, document, configs).value;
      t.version == 1 && t.name == stem && t.provider != [] && t.prompt != []
      && |t.decks.includes| > 0
      && (document.JObj? ==> forall i :: 0 <= i < |document.members| ==> document.members[i].0 in TaskKeys)
      && forall k :: 0 <= k < |t.fieldExceptions| ==>
           |t.fieldExceptions[k].readOnly| > 0 || |t.fieldExceptions[k].hidden| > 0
  {
    var mapping := ReadMapping(path, document).value;
    var header := Header(mapping, path, stem).value;
    TaskBodyAccepted(mapping, path, header.0, header.1, configs);
  }

  lemma TaskBodyAccepted(mapping: seq<(string, Json)>, path: string, version: int, name: string,
                         configs: seq<Models.NoteTypeConfig>)
    requires TaskBody(mapping, path, version, name, configs).Ok?
    ensures var t := TaskBody(mapping, path, version, name, configs).value;
      t.version == version && t.name == name && t.provider != [] && t.prompt != []
      && |t.decks.includes| > 0
      && (forall i :: 0 <= i < |mapping| ==> mapping[i].0 in TaskKeys)
      && forall k :: 0 <= k < |t.fieldExceptions| ==>
           |t.fieldExceptions[k].readOnly| > 0 || |t.fieldExceptions[k].hidden| > 0
  {
    var read := TaskConfig(version, name, RequireStr(mapping, "provider", path).value,
                           RequireStr(mapping, "prompt", path).value,
                           DeckScopeSpec(GetOrNull(mapping, "decks"), path).value, [], TaskRequestOptions(None, None));
    assert TaskBody(mapping, path, version, name, configs) == TaskRest(mapping, path, read, configs);
    DeckScopeProperties(GetOrNull(mapping, "decks"), path);
    TaskRestAccepted(mapping, path, read, configs);
  }

  lemma TaskRestAccepted(mapping: seq<(string, Json)>, path: string, read: TaskConfig,
                         configs: seq<Models.NoteTypeConfig>)
    requires TaskRest(mapping, path, read, configs).Ok?
    ensures var t := TaskRest(mapping, path, read, configs).value;
      t.(fieldExceptions := read.fieldExceptions, request := read.request) == read
      && (forall i :: 0 <= i < |mapping| ==> mapping[i].0 in TaskKeys)
      && forall k :: 0 <= k < |t.fieldExceptions| ==>
           |t.fieldExceptions[k].readOnly| > 0 || |t.fieldExceptions[k].hidden| > 0
  {
    FieldExceptionsAccepted(GetOrNull(mapping, "fields"), configs, path);
  }

  // ---------------------------------------------------------------- the loader

  /** A configuration file: its path, the file name without extension, and
      its parsed content. */
  datatype ConfigFile = ConfigFile(path: string, stem: string, document: Json)

  /** Each provider file's path and what it parses to. */
  function ProviderOutcomes(files: seq<ConfigFile>, env: map<string, string>)
    : (r: seq<(string, Result<ProviderConfig>)>)
    ensures |r| == |files|
    ensures forall i :: 0 <= i < |files| ==>
      r[i] == (files[i].path, ProviderSpec(files[i].path, files[i].stem, files[i].document, env))
  {
    seq(|files|, i requires 0 <= i < |files| =>
      (files[i].path, ProviderSpec(files[i].path, files[i].stem, files[i].document, env)))
  }

  /** Each task file's path and what it parses to. */
  function TaskOutcomes(files: seq<ConfigFile>, configs: seq<Models.NoteTypeConfig>)
    : (r: seq<(string, Result<TaskConfig>)>)
    ensures |r| == |files|
    ensures forall i :: 0 <= i < |files| ==>
      r[i] == (files[i].path, TaskSpec(files[i].path, files[i].stem, files[i].document, configs))
  {
    seq(|files|, i requires 0 <= i < |files| =>
      (files[i].path, TaskSpec(files[i].path, files[i].stem, files[i].document, configs)))
  }

  /** One provider file's effect on the providers and per-path errors: a
      name already taken is an error for the later file. */
  function ProviderStep(acc: (map<string, ProviderConfig>, map<string, string>),
                        outcome: (string, Result<ProviderConfig>))
    : (map<string, ProviderConfig>, map<string, string>)
  {
    var (providers, errors) := acc;
    var (path, parsed) := outcome;
    match parsed
    case Err(e) => (providers, errors[path := e])
    case Ok(p) =>
      if p.name in providers then (providers, errors[path := path + ": duplicate provider name '" + p.name + "'"])
      else (providers[p.name := p], errors)
  }

  /** Providers and per-path errors after the given outcomes, in order. */
  function ProvidersAfter(outcomes: seq<(string, Result<ProviderConfig>)>)
    : (map<string, ProviderConfig>, map<string, string>)
    decreases |outcomes|
  {
    if |outcomes| == 0 then (map[], map[])
    else ProviderStep(ProvidersAfter(outcomes[..|outcomes| - 1]), outcomes[|outcomes| - 1])
  }

  /** One task file's effect, checked against the providers already loaded. */
  function TaskStep(acc: (map<string, TaskConfig>, map<string, string>),
                    outcome: (string, Result<TaskConfig>), providers: map<string, ProviderConfig>)
    : (map<string, TaskConfig>, map<string, string>)
  {
    var (tasks, errors) := acc;
    var (path, parsed) := outcome;
    match parsed
    case Err(e) => (tasks, errors[path := e])
    case Ok(t) =>
      if t.name in tasks then (tasks, errors[path := path + ": duplicate task name '" + t.name + "'"])
      else if t.provider !in providers then
        (tasks, errors[path := path + ": referenced provider '" + t.provider + "' is invalid or missing"])
      else (tasks[t.name := t], errors)
  }

  /** Tasks and per-path errors after the given outcomes, in order. */
  function TasksAfter(outcomes: seq<(string, Result<TaskConfig>)>, providers: map<string, ProviderConfig>)
    : (map<string, TaskConfig>, map<string, string>)
    decreases |outcomes|
  {
    if |outcomes| == 0 then (map[], map[])
    else TaskStep(TasksAfter(outcomes[..|outcomes| - 1], providers), outcomes[|outcomes| - 1], providers)
  }

  function LoadSpec(providerFiles: seq<ConfigFile>, taskFiles: seq<ConfigFile>,
                    configs: seq<Models.NoteTypeConfig>, env: map<string, string>): LlmConfigSet
  {
    var (providers, providerErrors) := ProvidersAfter(ProviderOutcomes(providerFiles, env));
    var (tasks, taskErrors) := TasksAfter(TaskOutcomes(taskFiles, configs), providers);
    LlmConfigSet(providers, tasks, providerErrors, taskErrors)
  }

  /** `load_llm_config_set` over the files of the providers and tasks
      directories in listing order (none when a directory is missing). */
  method LoadLlmConfigSet(providerFiles: seq<ConfigFile>, taskFiles: seq<ConfigFile>,
                          configs: seq<Models.NoteTypeConfig>, env: map<string, string>)
    returns (configSet: LlmConfigSet)
    ensures configSet == LoadSpec(providerFiles, taskFiles, configs, env)
  {
    var providers, providerErrors := LoadProviders(providerFiles, env);
    var tasks, taskErrors := LoadTasks(taskFiles, configs, providers);
    configSet := LlmConfigSet(providers, tasks, providerErrors, taskErrors);
  }

  /** The providers loop of `load_llm_config_set`. */
  method LoadProviders(files: seq<ConfigFile>, env: map<string, string>)
    returns (providers: map<string, ProviderConfig>, errors: map<string, string>)
    ensures (providers, errors) == ProvidersAfter(ProviderOutcomes(files, env))
  {
    ghost var outcomes := ProviderOutcomes(files, env);
    providers, errors := map[], map[];
    var i := 0;
    while i < |files|
      invariant 0 <= i <= |files|
      invariant ProvidersAfter(outcomes[..i]) == (providers, errors)
    {
      Seqs.TakeTake(outcomes, i + 1, i);
      var f := files[i];
      var parsed := ProviderSpec(f.path, f.stem, f.document, env);
      assert outcomes[..i + 1][i] == (f.path, parsed);
      ghost var before := (providers, errors);
      if parsed.Err? {
        errors := errors[f.path := parsed.error];
      } else if parsed.value.name in providers {
        errors := errors[f.path := f.path + ": duplicate provider name '" + parsed.value.name + "'"];
      } else {
        providers := providers[parsed.value.name := parsed.value];
      }
      assert (providers, errors) == ProviderStep(before, (f.path, parsed));
      assert ProvidersAfter(outcomes[..i + 1]) == ProviderStep(ProvidersAfter(outcomes[..i + 1][..i]), outcomes[..i + 1][i]);
      i := i + 1;
    }
    Seqs.TakeAll(outcomes);
  }

  /** The tasks loop of `load_llm_config_set`, against the loaded providers. */
  method LoadTasks(files: seq<ConfigFile>, configs: seq<Models.NoteTypeConfig>,
                   providers: map<string, ProviderConfig>)
    returns (tasks: map<string, TaskConfig>, errors: map<string, string>)
    ensures (tasks, errors) == TasksAfter(TaskOutcomes(files, configs), providers)
  {
    ghost var outcomes := TaskOutcomes(files, configs);
    tasks, errors := map[], map[];
    var j := 0;
    while j < |files|
      invariant 0 <= j <= |files|
      invariant TasksAfter(outcomes[..j], providers) == (tasks, errors)
    {
      Seqs.TakeTake(outcomes, j + 1, j);
      var f := files[j];
      var parsed := TaskSpec(f.path, f.stem, f.document, configs);
      assert outcomes[..j + 1][j] == (f.path, parsed);
      ghost var before := (tasks, errors);
      if parsed.Err? {
        errors := errors[f.path := parsed.error];
      } else if parsed.value.name in tasks {
        errors := errors[f.path := f.path + ": duplicate task name '" + parsed.value.name + "'"];
      } else if parsed.value.provider !in providers {
        errors := errors[f.path := f.path + ": referenced provider '" + parsed.value.provider + "' is invalid or missing"];
      } else {
        tasks := tasks[parsed.value.name := parsed.value];
      }
      assert (tasks, errors) == TaskStep(before, (f.path, parsed), providers);
      assert TasksAfter(outcomes[..j + 1], providers)
          == TaskStep(TasksAfter(outcomes[..j + 1][..j], providers), outcomes[..j + 1][j], providers);
      j := j + 1;
    }
    Seqs.TakeAll(outcomes);
  }

  /** Every loaded provider is stored under its own name and came from some
      file; the name of every file that parses is loaded, and the path of
      every file that does not is recorded as an error. */
  lemma {:induction false} ProvidersAccounted(outcomes: seq<(string, Result<ProviderConfig>)>)
    ensures var (providers, errors) := ProvidersAfter(outcomes);
      (forall name :: name in providers ==>
         providers[name].name == name && exists i :: 0 <= i < |outcomes| && outcomes[i].1 == Ok(providers[name]))
      && (forall i :: 0 <= i < |outcomes| && outcomes[i].1.Ok? ==> outcomes[i].1.value.name in providers)
      && (forall i :: 0 <= i < |outcomes| && outcomes[i].1.Err? ==> outcomes[i].0 in errors)
    decreases |outcomes|
  {
    if |outcomes| > 0 {
      var n := |outcomes| - 1;
      ProvidersAccounted(outcomes[..n]);
      assert forall i :: 0 <= i < n ==> outcomes[..n][i] == outcomes[i];
    }
  }

  /** The first file to parse to a name is the provider loaded under it. */
  lemma {:induction false} FirstProviderWins(outcomes: seq<(string, Result<ProviderConfig>)>, i: nat)
    requires i < |outcomes| && outcomes[i].1.Ok?
    requires forall k :: 0 <= k < i && outcomes[k].1.Ok? ==> outcomes[k].1.value.name != outcomes[i].1.value.name
    ensures outcomes[i].1.value.name in ProvidersAfter(outcomes).0
    ensures ProvidersAfter(outcomes).0[outcomes[i].1.value.name] == outcomes[i].1.value
    decreases |outcomes|
  {
    var n := |outcomes| - 1;
    var prefix := outcomes[..n];
    var name := outcomes[i].1.value.name;
    if i < n {
      assert prefix[i] == outcomes[i];
      assert forall k :: 0 <= k < i ==> prefix[k] == outcomes[k];
      FirstProviderWins(prefix, i);
    } else {
      ProvidersAccounted(prefix);
      forall k | 0 <= k < |prefix| && prefix[k].1.Ok?
        ensures prefix[k].1.value.name != name
      {
        assert outcomes[k] == prefix[k];
      }
    }
  }

  /** A later file that parses to a name already loaded is recorded as an
      error under its path. */
  lemma {:induction false} DuplicateProviderRejected(outcomes: seq<(string, Result<ProviderConfig>)>, i: nat, j: nat)
    requires i < j < |outcomes| && outcomes[i].1.Ok? && outcomes[j].1.Ok?
    requires outcomes[i].1.value.name == outcomes[j].1.value.name
    ensures outcomes[j].0 in ProvidersAfter(outcomes).1
    decreases |outcomes|
  {
    var n := |outcomes| - 1;
    var prefix := outcomes[..n];
    assert prefix[i] == outcomes[i];
    if j < n {
      assert prefix[j] == outcomes[j];
      DuplicateProviderRejected(prefix, i, j);
    } else {
      ProvidersAccounted(prefix);
    }
  }

  /** A task file's step keeps every task and every error already there. */
  lemma TaskStepGrows(acc: (map<string, TaskConfig>, map<string, string>),
                      outcome: (string, Result<TaskConfig>), providers: map<string, ProviderConfig>)
    ensures var after := TaskStep(acc, outcome, providers);
      acc.1.Keys <= after.1.Keys
      && (forall name :: name in acc.0 ==> name in after.0 && after.0[name] == acc.0[name])
      && (forall name :: name in after.0 && name !in acc.0 ==> outcome.1 == Ok(after.0[name]))
      && (outcome.1.Err? ==> outcome.0 in after.1)
      && (outcome.1.Ok? ==> outcome.1.value.name in after.0 || outcome.0 in after.1)
      && (forall name :: name in after.0 && name !in acc.0 ==> name == after.0[name].name && after.0[name].provider in providers)
  {
  }

  /** Every loaded task is stored under its own name, came from some file
      and references a loaded provider; every task file that fails to parse
      has its path recorded as an error, and one that parses is loaded
      under its name or has its path recorded. */
  lemma {:induction false} TasksAccounted(outcomes: seq<(string, Result<TaskConfig>)>,
                                          providers: map<string, ProviderConfig>)
    ensures var (tasks, errors) := TasksAfter(outcomes, providers);
      (forall name :: name in tasks ==>
         tasks[name].name == name && tasks[name].provider in providers
         && exists i :: 0 <= i < |outcomes| && outcomes[i].1 == Ok(tasks[name]))
      && (forall i :: 0 <= i < |outcomes| && outcomes[i].1.Err? ==> outcomes[i].0 in errors)
      && (forall i :: 0 <= i < |outcomes| && outcomes[i].1.Ok? ==>
            outcomes[i].1.value.name in tasks || outcomes[i].0 in errors)
    decreases |outcomes|
  {
    if |outcomes| > 0 {
      var n := |outcomes| - 1;
      var prefix := outcomes[..n];
      TasksAccounted(prefix, providers);
      var acc := TasksAfter(prefix, providers);
      TaskStepGrows(acc, outcomes[n], providers);
      var (tasks, errors) := TasksAfter(outcomes, providers);
      assert (tasks, errors) == TaskStep(acc, outcomes[n], providers);
      forall name | name in tasks
        ensures exists i :: 0 <= i < |outcomes| && outcomes[i].1 == Ok(tasks[name])
      {
        if name in acc.0 {
          var i :| 0 <= i < n && prefix[i].1 == Ok(acc.0[name]);
          assert outcomes[i] == prefix[i];
        } else {
          assert outcomes[n].1 == Ok(tasks[name]);
        }
      }
      forall i | 0 <= i < n
        ensures (outcomes[i].1.Err? ==> outcomes[i].0 in errors)
             && (outcomes[i].1.Ok? ==> outcomes[i].1.value.name in tasks || outcomes[i].0 in errors)
      {
        assert outcomes[i] == prefix[i];
      }
    }
  }

  /** The loaded configuration set: every task references a loaded provider,
      and every file is either loaded or has its path recorded. */
  lemma LoadAccounted(providerFiles: seq<ConfigFile>, taskFiles: seq<ConfigFile>,
                      configs: seq<Models.NoteTypeConfig>, env: map<string, string>)
    ensures var s := LoadSpec(providerFiles, taskFiles, configs, env);
      (forall name :: name in s.tasksByName ==> s.tasksByName[name].provider in s.providersByName)
      && (forall i :: 0 <= i < |providerFiles| ==>
            providerFiles[i].path in s.providerErrors
            || ProviderSpec(providerFiles[i].path, providerFiles[i].stem, providerFiles[i].document, env).Ok?)
      && (forall i :: 0 <= i < |taskFiles| ==>
            taskFiles[i].path in s.taskErrors
            || (TaskSpec(taskFiles[i].path, taskFiles[i].stem, taskFiles[i].document, configs).Ok?
                && TaskSpec(taskFiles[i].path, taskFiles[i].stem, taskFiles[i].document, configs).value.name
                   in s.tasksByName))
  {
    var providerOutcomes := ProviderOutcomes(providerFiles, env);
    ProvidersAccounted(providerOutcomes);
    var providers := ProvidersAfter(providerOutcomes).0;
    TasksAccounted(TaskOutcomes(taskFiles, configs), providers);
  }
}
