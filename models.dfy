/** The note-type configuration and the note parsed from Markdown: which
    prefixes identify a type, the consistency rules a set of configurations
    must satisfy, and the per-note validation of mandatory fields, cloze
    markers and choice answers. */
module Models {
  import opened Wrappers
  import Text
  import Seqs

  /** A field of a note type: its name, the Markdown line prefix that
      introduces it (if any) and whether it identifies the type. */
  datatype Field = Field(name: string, prefix: Option<string>, identifying: bool)

  const KeyFieldName := "AnkiOps Key"

  /** The field every note type carries for the note's key. */
  const AnkiOpsKeyField := Field(KeyFieldName, None, false)

  /** A note type. Card templates and CSS are carried by the source but
      play no part in any rule modelled here. */
  datatype NoteTypeConfig = NoteTypeConfig(name: string, fields: seq<Field>, isCloze: bool, isChoice: bool)

  /** `NoteTypeConfig.identifying_prefixes`. */
  function IdentifyingPrefixes(config: NoteTypeConfig): (r: set<string>)
    ensures forall p :: p in r <==>
      exists i :: 0 <= i < |config.fields| && config.fields[i].identifying && config.fields[i].prefix == Some(p)
  {
    var r := set f | f in config.fields && f.prefix.Some? && f.identifying :: f.prefix.value;
    assert forall p :: p in r ==>
      exists i :: 0 <= i < |config.fields| && config.fields[i].identifying && config.fields[i].prefix == Some(p);
    r
  }

  /** Built-in note types are those whose name starts with `AnkiOps`. */
  predicate IsBuiltin(config: NoteTypeConfig) {
    Text.StartsWith(config.name, "AnkiOps")
  }

  // ---------------------------------------------------------------- validate_configs

  /** Why `validate_configs` refuses a set of configurations. The source
      raises a `ValueError` whose text names the same parts. */
  datatype ConfigError =
    | PrefixConflict(prefix: string, existingName: string, fieldName: string, configName: string)
    | ReservedWithPrefix(configName: string, fieldName: string)
    | ReservedIdentifying(configName: string, fieldName: string)
    | BuiltinPrefixUsed(configName: string, prefix: string)
    | AmbiguousTypes(configName: string, otherName: string, prefixes: set<string>)
    | ChoiceWithoutChoiceField(configName: string)

  /** A field together with the name of the type that declares it. */
  type Placed = (string, Field)

  function Placements(config: NoteTypeConfig): (r: seq<Placed>)
    ensures |r| == |config.fields| && forall k :: 0 <= k < |r| ==> r[k] == (config.name, config.fields[k])
  {
    seq(|config.fields|, k requires 0 <= k < |config.fields| => (config.name, config.fields[k]))
  }

  /** Every field of every configuration, in declaration order. */
  function AllFields(configs: seq<NoteTypeConfig>): seq<Placed>
    decreases |configs|
  {
    if |configs| == 0 then [] else AllFields(configs[..|configs| - 1]) + Placements(configs[|configs| - 1])
  }

  /** The state of the first pass: the global prefix table, or the first
      conflict found. */
  datatype PrefixScan = Conflict(error: ConfigError) | Table(fields: map<string, string>)

  /** The first pass over all fields: each prefix is bound to the first
      field name that uses it; a later field with the same prefix and
      another name is a conflict. */
  function ScanPrefixes(placed: seq<Placed>): PrefixScan
    decreases |placed|
  {
    if |placed| == 0 then Table(map[])
    else ScanOne(ScanPrefixes(placed[..|placed| - 1]), placed[|placed| - 1])
  }

  /** One field of the first pass. */
  function ScanOne(prev: PrefixScan, p: Placed): PrefixScan {
    var (configName, f) := p;
    if prev.Conflict? || f.prefix.None? then prev
    else if f.prefix.value in prev.fields then
      if prev.fields[f.prefix.value] != f.name
      then Conflict(PrefixConflict(f.prefix.value, prev.fields[f.prefix.value], f.name, configName))
      else prev
    else Table(prev.fields[f.prefix.value := f.name])
  }

  lemma ScanSnoc(placed: seq<Placed>, p: Placed)
    ensures ScanPrefixes(placed + [p]) == ScanOne(ScanPrefixes(placed), p)
  {
    Seqs.AppendTake(placed, [p]);
  }

  /** No prefix is used by two fields of different names, across all
      configurations. */
  predicate PrefixesConsistent(placed: seq<Placed>) {
    forall a, b ::
      (0 <= a < |placed| && 0 <= b < |placed| && placed[a].1.prefix.Some?
       && placed[a].1.prefix == placed[b].1.prefix) ==> placed[a].1.name == placed[b].1.name
  }

  /** The first pass succeeds exactly when prefixes are consistent; its table
      then maps each used prefix to the name of the fields using it. */
  lemma {:induction false} ScanPrefixesIff(placed: seq<Placed>)
    ensures ScanPrefixes(placed).Table? <==> PrefixesConsistent(placed)
    ensures ScanPrefixes(placed).Table? ==>
      (forall p :: p in ScanPrefixes(placed).fields <==>
         exists a :: 0 <= a < |placed| && placed[a].1.prefix == Some(p))
      && forall a :: 0 <= a < |placed| && placed[a].1.prefix.Some? ==>
           ScanPrefixes(placed).fields[placed[a].1.prefix.value] == placed[a].1.name
    decreases |placed|
  {
    if |placed| > 0 {
      var n := |placed| - 1;
      var init := placed[..n];
      ScanPrefixesIff(init);
      assert forall a :: 0 <= a < n ==> init[a] == placed[a];
      var prev := ScanPrefixes(init);
      var f := placed[n].1;
      if prev.Table? && f.prefix.Some? && f.prefix.value in prev.fields && prev.fields[f.prefix.value] != f.name {
        var a :| 0 <= a < n && init[a].1.prefix == f.prefix;
        assert placed[a].1.name != placed[n].1.name;
      }
      if PrefixesConsistent(placed) {
        assert PrefixesConsistent(init);
      }
    }
  }

  /** The prefixes reserved by built-in types: their identifying prefixes. */
  function BuiltinPrefixes(configs: seq<NoteTypeConfig>): (r: set<string>)
    ensures forall p :: p in r <==>
      exists i :: 0 <= i < |configs| && IsBuiltin(configs[i]) && p in IdentifyingPrefixes(configs[i])
    decreases |configs|
  {
    if |configs| == 0 then {}
    else
      var n := |configs| - 1;
      var prev := BuiltinPrefixes(configs[..n]);
      assert forall i :: 0 <= i < n ==> configs[..n][i] == configs[i];
      prev + (if IsBuiltin(configs[n]) then IdentifyingPrefixes(configs[n]) else {})
  }

  /** The reservation checks of one field of `config`. */
  function FieldError(config: NoteTypeConfig, f: Field, builtins: set<string>): (r: Option<ConfigError>)
    ensures r.None? <==>
      (f.name == KeyFieldName ==> f.prefix.None? && !f.identifying)
      && (f.prefix.Some? && f.prefix.value in builtins ==> IsBuiltin(config))
  {
    if f.name == KeyFieldName && f.prefix.Some? then Some(ReservedWithPrefix(config.name, f.name))
    else if f.name == KeyFieldName && f.identifying then Some(ReservedIdentifying(config.name, f.name))
    else if f.prefix.Some? && f.prefix.value in builtins && !IsBuiltin(config)
    then Some(BuiltinPrefixUsed(config.name, f.prefix.value))
    else None
  }

  /** The first field of `fields` that fails the reservation checks. */
  function FirstFieldError(config: NoteTypeConfig, fields: seq<Field>, builtins: set<string>): (r: Option<ConfigError>)
    ensures r.None? <==> forall k :: 0 <= k < |fields| ==> FieldError(config, fields[k], builtins).None?
    decreases |fields|
  {
    if |fields| == 0 then None
    else if FieldError(config, fields[0], builtins).Some? then FieldError(config, fields[0], builtins)
    else
      var rest := FirstFieldError(config, fields[1..], builtins);
      assert forall k :: 1 <= k < |fields| ==> fields[k] == fields[1..][k - 1];
      rest
  }

  /** The first other type (by name) with the same identifying prefixes. */
  function FirstAmbiguity(config: NoteTypeConfig, others: seq<NoteTypeConfig>): (r: Option<ConfigError>)
    ensures r.None? <==> forall k :: 0 <= k < |others| && others[k].name != config.name ==>
      IdentifyingPrefixes(others[k]) != IdentifyingPrefixes(config)
    decreases |others|
  {
    if |others| == 0 then None
    else if others[0].name != config.name && IdentifyingPrefixes(others[0]) == IdentifyingPrefixes(config)
    then Some(AmbiguousTypes(config.name, others[0].name, IdentifyingPrefixes(config)))
    else
      var rest := FirstAmbiguity(config, others[1..]);
      assert forall k :: 1 <= k < |others| ==> others[k] == others[1..][k - 1];
      rest
  }

  /** A field whose lower-cased name contains `choice`. */
  predicate HasChoiceField(config: NoteTypeConfig) {
    exists k :: 0 <= k < |config.fields| && Text.Contains(Text.Lower(config.fields[k].name), "choice")
  }

  /** The checks of the second pass for one configuration, in source order:
      reservations, distinctness, then the choice rule. */
  function ConfigCheck(config: NoteTypeConfig, configs: seq<NoteTypeConfig>, builtins: set<string>): (r: Option<ConfigError>)
    ensures r.None? <==>
      (forall k :: 0 <= k < |config.fields| ==> FieldError(config, config.fields[k], builtins).None?)
      && (forall k :: 0 <= k < |configs| && configs[k].name != config.name ==>
            IdentifyingPrefixes(configs[k]) != IdentifyingPrefixes(config))
      && (config.isChoice ==> HasChoiceField(config))
  {
    var fieldError := FirstFieldError(config, config.fields, builtins);
    if fieldError.Some? then fieldError
    else
      var ambiguity := FirstAmbiguity(config, configs);
      if ambiguity.Some? then ambiguity
      else if config.isChoice && !HasChoiceField(config) then Some(ChoiceWithoutChoiceField(config.name))
      else None
  }

  /** The second pass: the first configuration, in order, that fails. */
  function FirstConfigError(checked: seq<NoteTypeConfig>, configs: seq<NoteTypeConfig>, builtins: set<string>): (r: Option<ConfigError>)
    ensures r.None? <==> forall i :: 0 <= i < |checked| ==> ConfigCheck(checked[i], configs, builtins).None?
    decreases |checked|
  {
    if |checked| == 0 then None
    else
      var n := |checked| - 1;
      var prev := FirstConfigError(checked[..n], configs, builtins);
      assert forall i :: 0 <= i < n ==> checked[..n][i] == checked[i];
      if prev.Some? then prev else ConfigCheck(checked[n], configs, builtins)
  }

  /** `validate_configs` as a function: the error it raises, if any. */
  function ValidateConfigsSpec(configs: seq<NoteTypeConfig>): Option<ConfigError> {
    match ScanPrefixes(AllFields(configs))
    case Conflict(e) => Some(e)
    case Table(_) => FirstConfigError(configs, configs, BuiltinPrefixes(configs))
  }

  /** The rules a set of note types must obey, stated outright. */
  predicate ConfigsValid(configs: seq<NoteTypeConfig>) {
    var all := AllFields(configs);
    var builtins := BuiltinPrefixes(configs);
    PrefixesConsistent(all)
    && forall i :: 0 <= i < |configs| ==>
         (forall k :: 0 <= k < |configs[i].fields| ==>
            (configs[i].fields[k].name == KeyFieldName ==>
               configs[i].fields[k].prefix.None? && !configs[i].fields[k].identifying)
            && (configs[i].fields[k].prefix.Some? && configs[i].fields[k].prefix.value in builtins ==>
                  IsBuiltin(configs[i])))
         && (forall j :: 0 <= j < |configs| && configs[j].name != configs[i].name ==>
               IdentifyingPrefixes(configs[j]) != IdentifyingPrefixes(configs[i]))
         && (configs[i].isChoice ==> HasChoiceField(configs[i]))
  }

  /** `validate_configs` raises exactly when the rules are broken. */
  lemma ValidateConfigsIff(configs: seq<NoteTypeConfig>)
    ensures ValidateConfigsSpec(configs).None? <==> ConfigsValid(configs)
  {
    ScanPrefixesIff(AllFields(configs));
  }

  /** The inner loop of the first pass: the fields of one configuration
      added to the prefix table built so far. */
  method ScanFields(prior: seq<Placed>, table: map<string, string>, config: NoteTypeConfig)
    returns (scan: PrefixScan)
    requires ScanPrefixes(prior) == Table(table)
    ensures scan == ScanPrefixes(prior + Placements(config))
  {
    var placed := Placements(config);
    var prefixToField := table;
    Seqs.AppendNone(prior, placed[..0]);
    var j := 0;
    while j < |config.fields|
      invariant 0 <= j <= |config.fields|
      invariant ScanPrefixes(prior + placed[..j]) == Table(prefixToField)
    {
      Seqs.AppendTakeNext(prior, placed, j);
      ScanSnoc(prior + placed[..j], placed[j]);
      var next := ScanField(prefixToField, config.name, config.fields[j]);
      if next.Conflict? {
        scan := next;
        Seqs.AppendTakeFrom(prior, placed, j + 1);
        ScanConflictSticksFrom(prior + placed, |prior| + j + 1);
        return;
      }
      prefixToField := next.fields;
      j := j + 1;
    }
    Seqs.TakeAll(placed);
    scan := Table(prefixToField);
  }

  /** The body of that inner loop for one field. */
  method ScanField(table: map<string, string>, configName: string, f: Field) returns (scan: PrefixScan)
    ensures scan == ScanOne(Table(table), (configName, f))
  {
    scan := Table(table);
    if f.prefix.Some? {
      if f.prefix.value in table {
        if table[f.prefix.value] != f.name {
          scan := Conflict(PrefixConflict(f.prefix.value, table[f.prefix.value], f.name, configName));
        }
      } else {
        scan := Table(table[f.prefix.value := f.name]);
      }
    }
  }

  /** The first loop of `validate_configs`: the global prefix table and the
      prefixes reserved by built-in types. */
  method ScanConfigs(configs: seq<NoteTypeConfig>) returns (scan: PrefixScan, builtins: set<string>)
    ensures scan == ScanPrefixes(AllFields(configs))
    ensures scan.Table? ==> builtins == BuiltinPrefixes(configs)
  {
    var prefixToField: map<string, string> := map[];
    builtins := {};
    var i := 0;
    while i < |configs|
      invariant 0 <= i <= |configs|
      invariant ScanPrefixes(AllFields(configs[..i])) == Table(prefixToField)
      invariant builtins == BuiltinPrefixes(configs[..i])
    {
      var config := configs[i];
      assert configs[..i + 1][..i] == configs[..i];
      if IsBuiltin(config) {
        builtins := builtins + IdentifyingPrefixes(config);
      }
      scan := ScanFields(AllFields(configs[..i]), prefixToField, config);
      assert AllFields(configs[..i + 1]) == AllFields(configs[..i]) + Placements(config);
      if scan.Conflict? {
        AllFieldsPrefix(configs, i + 1);
        var rest :| AllFields(configs) == AllFields(configs[..i + 1]) + rest;
        assert AllFields(configs)[..|AllFields(configs[..i + 1])|] == AllFields(configs[..i + 1]);
        ScanConflictSticksFrom(AllFields(configs), |AllFields(configs[..i + 1])|);
        return;
      }
      prefixToField := scan.fields;
      i := i + 1;
    }
    assert configs[..i] == configs;
    scan := Table(prefixToField);
  }

  /** The second loop of `validate_configs`: the first configuration that
      fails its checks. */
  method CheckConfigs(configs: seq<NoteTypeConfig>, builtins: set<string>) returns (error: Option<ConfigError>)
    ensures error == FirstConfigError(configs, configs, builtins)
  {
    var i := 0;
    while i < |configs|
      invariant 0 <= i <= |configs|
      invariant FirstConfigError(configs[..i], configs, builtins).None?
    {
      assert configs[..i + 1][..i] == configs[..i];
      var e := ConfigCheck(configs[i], configs, builtins);
      if e.Some? {
        FirstErrorSticks(configs, configs, builtins, i + 1);
        return e;
      }
      i := i + 1;
    }
    assert configs[..i] == configs;
    return None;
  }

  /** `NoteTypeConfig.validate_configs`: the first loop builds the prefix
      table and the built-in prefixes, the second checks each type. */
  method ValidateConfigs(configs: seq<NoteTypeConfig>) returns (error: Option<ConfigError>)
    ensures error == ValidateConfigsSpec(configs)
    ensures error.None? <==> ConfigsValid(configs)
  {
    ValidateConfigsIff(configs);
    var scan, builtins := ScanConfigs(configs);
    if scan.Conflict? {
      return Some(scan.error);
    }
    error := CheckConfigs(configs, builtins);
  }

  /** Once the scan of a prefix of all fields hits a conflict, the whole
      first pass ends with it. */
  lemma {:induction false} ScanConflictSticksFrom(placed: seq<Placed>, m: nat)
    requires m <= |placed| && ScanPrefixes(placed[..m]).Conflict?
    ensures ScanPrefixes(placed) == ScanPrefixes(placed[..m])
    decreases |placed| - m
  {
    if m < |placed| {
      assert placed[..m + 1][..m] == placed[..m];
      ScanConflictSticksFrom(placed, m + 1);
    } else {
      assert placed[..m] == placed;
    }
  }

  lemma {:induction false} AllFieldsPrefix(configs: seq<NoteTypeConfig>, i: nat)
    requires i <= |configs|
    ensures exists rest :: AllFields(configs) == AllFields(configs[..i]) + rest
    decreases |configs| - i
  {
    if i == |configs| {
      assert configs[..i] == configs;
      assert AllFields(configs) == AllFields(configs[..i]) + [];
    } else {
      AllFieldsPrefix(configs, i + 1);
      var rest :| AllFields(configs) == AllFields(configs[..i + 1]) + rest;
      assert configs[..i + 1][..i] == configs[..i];
      assert AllFields(configs[..i + 1]) == AllFields(configs[..i]) + Placements(configs[i]);
      assert AllFields(configs) == AllFields(configs[..i]) + (Placements(configs[i]) + rest);
    }
  }

  /** Once a configuration fails, the second pass ends with its error. */
  lemma {:induction false} FirstErrorSticks(checked: seq<NoteTypeConfig>, configs: seq<NoteTypeConfig>,
                                            builtins: set<string>, m: nat)
    requires m <= |checked| && FirstConfigError(checked[..m], configs, builtins).Some?
    ensures FirstConfigError(checked, configs, builtins) == FirstConfigError(checked[..m], configs, builtins)
    decreases |checked| - m
  {
    if m < |checked| {
      assert checked[..m + 1][..m] == checked[..m];
      FirstErrorSticks(checked, configs, builtins, m + 1);
    } else {
      assert checked[..m] == checked;
    }
  }

  // ---------------------------------------------------------------- Note

  /** A note parsed from Markdown. Its fields keep the order of the
      source's `dict`; names are distinct. */
  datatype Note = Note(noteKey: Option<string>, noteType: string, fields: seq<(string, string)>)

  /** `note.fields.get(name, "")`. */
  function FieldValue(note: Note, name: string): string {
    ValueIn(note.fields, name)
  }

  function ValueIn(fields: seq<(string, string)>, name: string): string
    decreases |fields|
  {
    if |fields| == 0 then ""
    else if fields[0].0 == name then fields[0].1
    else ValueIn(fields[1..], name)
  }

  /** `content.split("\n")[0]`: the text before the first line break. */
  function FirstLine(content: string): (r: string)
    ensures Text.StartsWith(content, r)
    ensures '\n' !in r
    ensures |r| < |content| ==> content[|r|] == '\n'
  {
    match Text.Find(content, "\n")
    case None =>
      forall k | 0 <= k < |content| ensures content[k] != '\n' {
        Text.FindFirst(content, "\n", k);
        assert content[k..k + 1] == [content[k]];
      }
      content
    case Some(i) =>
      forall k | 0 <= k < i ensures content[k] != '\n' {
        Text.FindFirst(content, "\n", k);
        assert content[k..k + 1] == [content[k]];
      }
      assert content[i..i + 1] == "\n";
      content[..i]
  }

  /** `Note.first_field_line`: the first line of the first non-empty field
      value, or the empty string when every field is empty. */
  function FirstFieldLine(note: Note): (r: string)
    ensures (forall i :: 0 <= i < |note.fields| ==> note.fields[i].1 == "") ==> r == ""
    ensures (exists i :: 0 <= i < |note.fields| && note.fields[i].1 != ""
               && (forall j :: 0 <= j < i ==> note.fields[j].1 == "")
               && r == FirstLine(note.fields[i].1))
      || (forall i :: 0 <= i < |note.fields| ==> note.fields[i].1 == "")
  {
    FirstPopulatedLine(note.fields)
  }

  function FirstPopulatedLine(fields: seq<(string, string)>): (r: string)
    ensures (forall i :: 0 <= i < |fields| ==> fields[i].1 == "") ==> r == ""
    ensures (exists i :: 0 <= i < |fields| && fields[i].1 != ""
               && (forall j :: 0 <= j < i ==> fields[j].1 == "")
               && r == FirstLine(fields[i].1))
      || (forall i :: 0 <= i < |fields| ==> fields[i].1 == "")
    decreases |fields|
  {
    if |fields| == 0 then ""
    else if fields[0].1 != "" then FirstLine(fields[0].1)
    else
      var r := FirstPopulatedLine(fields[1..]);
      assert forall i :: 1 <= i < |fields| ==> fields[i] == fields[1..][i - 1];
      r
  }

  /** `Note.identifier`: the key when the note has one, otherwise the first
      sixty characters of its first line, quoted and followed by `...`. */
  function Identifier(note: Note): (r: string)
    ensures note.noteKey.Some? ==> r == "note_key: " + note.noteKey.value
    ensures note.noteKey.None? ==>
      Text.StartsWith(r, "'") && Text.EndsWith(r, "...'") && 5 <= |r| <= 65
      && Text.StartsWith(FirstFieldLine(note), r[1..|r| - 4])
  {
    if note.noteKey.Some? then "note_key: " + note.noteKey.value
    else
      var line := FirstFieldLine(note);
      var shown := if |line| <= 60 then line else line[..60];
      var r := "'" + shown + "...'";
      assert r[1..|r| - 4] == shown;
      r
  }

  // ---------------------------------------------------------------- Note.validate

  /** `\{\{c\d+::` matches at index `i`. */
  predicate ClozeAt(s: string, i: int) {
    Text.OccursAt(s, "{{c", i)
    && exists j | i + 3 < j <= |s| - 2 ::
         (forall k | i + 3 <= k < j :: Text.IsDigit(s[k])) && s[j] == ':' && s[j + 1] == ':'
  }

  /** `_CLOZE_PATTERN.search(s)` finds a match. */
  predicate HasClozeMarker(s: string) {
    exists i | 0 <= i <= |s| :: ClozeAt(s, i)
  }

  /** Some non-empty field value of the note carries a cloze marker. */
  predicate HasCloze(note: Note) {
    exists i | 0 <= i < |note.fields| :: note.fields[i].1 != "" && HasClozeMarker(note.fields[i].1)
  }

  predicate IsChoiceName(name: string) {
    Text.Contains(name, "Choice")
  }

  /** A field whose absence `validate` reports: prefixed, identifying and
      not a choice field. */
  predicate Mandatory(f: Field) {
    !IsChoiceName(f.name) && f.prefix.Some? && f.identifying
  }

  function MissingMessage(f: Field): string
    requires f.prefix.Some?
  {
    "Missing mandatory field '" + f.name + "' (" + f.prefix.value + ")"
  }

  function ClozeMessage(noteType: string): string {
    noteType + " note must contain cloze syntax (e.g. {{c1::answer}})"
  }

  function ChoiceCountMessage(noteType: string): string {
    noteType + " note must have at least 2 choices"
  }

  const IntegersMessage := "AnkiOpsChoice answer (A:) must contain integers "
    + "(e.g. '1' for single choice or '1, 2, 3' for multiple choice)"

  function RangeMessage(n: int, maxChoice: int): string {
    "AnkiOpsChoice answer contains '" + Text.IntToString(n) + "' but only "
    + Text.IntToString(maxChoice) + " choice(s) are provided"
  }

  /** The names of the choice fields, in order. */
  function ChoiceNames(fs: seq<Field>): (r: seq<string>)
    ensures forall k :: 0 <= k < |r| ==> IsChoiceName(r[k])
    ensures |r| == 0 <==> forall k :: 0 <= k < |fs| ==> !IsChoiceName(fs[k].name)
    decreases |fs|
  {
    if |fs| == 0 then []
    else
      var n := |fs| - 1;
      var prev := ChoiceNames(fs[..n]);
      assert forall k :: 0 <= k < n ==> fs[..n][k] == fs[k];
      prev + (if IsChoiceName(fs[n].name) then [fs[n].name] else [])
  }

  /** One message per missing mandatory field, in field order. */
  function MissingErrors(fs: seq<Field>, note: Note): seq<string>
    decreases |fs|
  {
    if |fs| == 0 then []
    else
      var n := |fs| - 1;
      MissingErrors(fs[..n], note)
      + (if Mandatory(fs[n]) && FieldValue(note, fs[n].name) == "" then [MissingMessage(fs[n])] else [])
  }

  /** The number of choice names whose field is non-empty. */
  function PopulatedCount(names: seq<string>, note: Note): nat
    decreases |names|
  {
    if |names| == 0 then 0
    else
      var n := |names| - 1;
      PopulatedCount(names[..n], note) + (if FieldValue(note, names[n]) != "" then 1 else 0)
  }

  /** The trailing run of non-whitespace characters of `s`. */
  function TrailingWord(s: string): (r: string)
    ensures Text.EndsWith(s, r)
    ensures forall k :: 0 <= k < |r| ==> r[k] !in Text.Whitespace
    ensures |r| < |s| ==> s[|s| - |r| - 1] in Text.Whitespace
    decreases |s|
  {
    if |s| == 0 || s[|s| - 1] in Text.Whitespace then []
    else
      var r := TrailingWord(s[..|s| - 1]) + [s[|s| - 1]];
      assert s[..|s| - 1][|s| - 1 - (|r| - 1)..] + [s[|s| - 1]] == s[|s| - |r|..];
      r
  }

  /** `int(name.split()[-1])`: `IndexError` for a blank name and
      `ValueError` when the last word is not an integer. */
  function ChoiceNumber(name: string): (r: Result<int>)
    ensures Text.RStripSpace(name) == [] ==> r == Err("IndexError")
  {
    var t := Text.RStripSpace(name);
    if t == [] then Err("IndexError")
    else
      match Text.ParseInt(TrailingWord(t))
      case None => Err("ValueError")
      case Some(v) => Ok(v)
  }

  /** What the `max(..., default=0)` generator sees for each choice field:
      nothing for an empty field, otherwise its number or the exception. */
  function ChoiceEntries(names: seq<string>, note: Note): (r: seq<Option<Result<int>>>)
    ensures |r| == |names|
    ensures forall k :: 0 <= k < |names| ==>
      r[k] == (if FieldValue(note, names[k]) == "" then None else Some(ChoiceNumber(names[k])))
  {
    seq(|names|, k requires 0 <= k < |names| =>
      if FieldValue(note, names[k]) == "" then None else Some(ChoiceNumber(names[k])))
  }

  /** `max` over the generator before its default: the largest number, or
      the first exception raised, in order. */
  function MaxOf(entries: seq<Option<Result<int>>>): (r: Result<Option<int>>)
    ensures r.Ok? ==>
      (forall k :: 0 <= k < |entries| && entries[k].Some? ==>
         entries[k].value.Ok? && r.value.Some? && entries[k].value.value <= r.value.value)
      && (r.value.Some? ==> exists k :: 0 <= k < |entries| && entries[k] == Some(Ok(r.value.value)))
      && (r.value.None? ==> forall k :: 0 <= k < |entries| ==> entries[k].None?)
    ensures r.Err? ==>
      exists k :: 0 <= k < |entries| && entries[k] == Some(Err(r.error))
        && forall j :: 0 <= j < k && entries[j].Some? ==> entries[j].value.Ok?
    decreases |entries|
  {
    if |entries| == 0 then Ok(None)
    else
      var n := |entries| - 1;
      var prev := MaxOf(entries[..n]);
      assert forall k :: 0 <= k < n ==> entries[..n][k] == entries[k];
      if prev.Err? then prev
      else
        match entries[n]
        case None => prev
        case Some(Err(e)) => Err(e)
        case Some(Ok(v)) =>
          if prev.value.None? || prev.value.value < v then Ok(Some(v)) else prev
  }

  /** The highest populated choice number, or the exception raised while
      reading it. */
  function MaxChoice(names: seq<string>, note: Note): Result<Option<int>> {
    MaxOf(ChoiceEntries(names, note))
  }

  /** Each comma-separated part as Python's `int` reads it. */
  function PartValues(parts: seq<string>): (r: seq<Option<int>>)
    ensures |r| == |parts| && forall k :: 0 <= k < |parts| ==> r[k] == Text.ParseInt(Text.Strip(parts[k]))
  {
    seq(|parts|, k requires 0 <= k < |parts| => Text.ParseInt(Text.Strip(parts[k])))
  }

  /** The list comprehension over the parts: every value, or `None` when
      `int` raises on one of them. */
  function AllParsed(values: seq<Option<int>>): Option<seq<int>>
    decreases |values|
  {
    if |values| == 0 then Some([])
    else if values[0].None? then None
    else
      var rest := AllParsed(values[1..]);
      if rest.None? then None else Some([values[0].value] + rest.value)
  }

  /** The comprehension succeeds exactly when every part parses, and then
      holds every value in order. */
  lemma {:induction false} AllParsedIff(values: seq<Option<int>>)
    ensures AllParsed(values).Some? <==> forall k :: 0 <= k < |values| ==> values[k].Some?
    ensures AllParsed(values).Some? ==>
      (|AllParsed(values).value| == |values|
       && forall k :: 0 <= k < |values| ==> values[k] == Some(AllParsed(values).value[k]))
    decreases |values|
  {
    if |values| > 0 && values[0].Some? {
      AllParsedIff(values[1..]);
      assert forall k :: 1 <= k < |values| ==> values[k] == values[1..][k - 1];
    }
  }

  function ParseAll(parts: seq<string>): Option<seq<int>> {
    AllParsed(PartValues(parts))
  }

  /** The first answer number outside `1..maxChoice`. */
  function FirstOutOfRange(values: seq<int>, maxChoice: int): (r: Option<int>)
    ensures r.None? <==> forall k :: 0 <= k < |values| ==> 1 <= values[k] <= maxChoice
    ensures r.Some? ==>
      ((r.value < 1 || r.value > maxChoice) && exists k :: 0 <= k < |values| && values[k] == r.value)
    decreases |values|
  {
    if |values| == 0 then None
    else if values[0] < 1 || values[0] > maxChoice then Some(values[0])
    else
      var rest := FirstOutOfRange(values[1..], maxChoice);
      assert forall k :: 1 <= k < |values| ==> values[k] == values[1..][k - 1];
      rest
  }

  /** `Note._validate_choice_answers`. */
  function ChoiceAnswers(note: Note, names: seq<string>): Result<seq<string>> {
    var answer := FieldValue(note, "Answer");
    if answer == "" then Ok([])
    else
      match ParseAll(Text.Split(answer, ","))
      case None => Ok([IntegersMessage])
      case Some(values) =>
        match MaxChoice(names, note)
        case Err(e) => Err(e)
        case Ok(highest) =>
          var maxChoice := highest.GetOr(0);
          match FirstOutOfRange(values, maxChoice)
          case Some(n) => Ok([RangeMessage(n, maxChoice)])
          case None => Ok([])
  }

  /** The answer check reports at most one error, and none exactly when the
      answer is empty or lists only integers within the populated choices. */
  lemma ChoiceAnswersIff(note: Note, names: seq<string>)
    ensures ChoiceAnswers(note, names).Ok? ==> |ChoiceAnswers(note, names).value| <= 1
    ensures ChoiceAnswers(note, names) == Ok([]) <==>
      FieldValue(note, "Answer") == ""
      || (ParseAll(Text.Split(FieldValue(note, "Answer"), ",")).Some?
          && MaxChoice(names, note).Ok?
          && forall k :: 0 <= k < |ParseAll(Text.Split(FieldValue(note, "Answer"), ",")).value| ==>
               1 <= ParseAll(Text.Split(FieldValue(note, "Answer"), ",")).value[k]
                 <= MaxChoice(names, note).value.GetOr(0))
    ensures ChoiceAnswers(note, names).Err? ==> FieldValue(note, "Answer") != ""
  {
    var answer := FieldValue(note, "Answer");
    if answer != "" {
      var parsed := ParseAll(Text.Split(answer, ","));
      if parsed.Some? {
        var highest := MaxChoice(names, note);
        if highest.Ok? {
          var out := FirstOutOfRange(parsed.value, highest.value.GetOr(0));
          assert ChoiceAnswers(note, names) == if out.Some? then Ok([RangeMessage(out.value, highest.value.GetOr(0))]) else Ok([]);
        }
      }
    }
  }

  /** `Note.validate`: the messages in source order, or the exception the
      choice-number parsing raises. */
  function ValidateSpec(note: Note, config: NoteTypeConfig): Result<seq<string>> {
    var base := MissingErrors(config.fields, note)
      + (if config.isCloze && !HasCloze(note) then [ClozeMessage(note.noteType)] else []);
    var names := ChoiceNames(config.fields);
    if |names| == 0 then Ok(base)
    else
      var countErrors := if PopulatedCount(names, note) < 2 then [ChoiceCountMessage(note.noteType)] else [];
      var answers := ChoiceAnswers(note, names);
      if answers.Err? then Err(answers.error) else Ok(base + countErrors + answers.value)
  }

  /** Every missing mandatory field is reported, and only those. */
  lemma MissingErrorsIff(fs: seq<Field>, note: Note)
    ensures MissingErrors(fs, note) == [] <==>
      forall k :: 0 <= k < |fs| && Mandatory(fs[k]) ==> FieldValue(note, fs[k].name) != ""
    ensures forall k :: 0 <= k < |fs| && Mandatory(fs[k]) && FieldValue(note, fs[k].name) == "" ==>
      MissingMessage(fs[k]) in MissingErrors(fs, note)
  {
    MissingErrorsNone(fs, note);
    MissingErrorsReported(fs, note);
  }

  lemma {:induction false} MissingErrorsNone(fs: seq<Field>, note: Note)
    ensures MissingErrors(fs, note) == [] <==>
      forall k :: 0 <= k < |fs| && Mandatory(fs[k]) ==> FieldValue(note, fs[k].name) != ""
    decreases |fs|
  {
    if |fs| > 0 {
      var n := |fs| - 1;
      var prefix := fs[..n];
      var last := if Mandatory(fs[n]) && FieldValue(note, fs[n].name) == "" then [MissingMessage(fs[n])] else [];
      assert MissingErrors(fs, note) == MissingErrors(prefix, note) + last;
      MissingErrorsNone(prefix, note);
      assert forall k :: 0 <= k < n ==> prefix[k] == fs[k];
    }
  }

  lemma {:induction false} MissingErrorsReported(fs: seq<Field>, note: Note)
    ensures forall k :: 0 <= k < |fs| && Mandatory(fs[k]) && FieldValue(note, fs[k].name) == "" ==>
      MissingMessage(fs[k]) in MissingErrors(fs, note)
    decreases |fs|
  {
    if |fs| > 0 {
      var n := |fs| - 1;
      var prefix := fs[..n];
      var last := if Mandatory(fs[n]) && FieldValue(note, fs[n].name) == "" then [MissingMessage(fs[n])] else [];
      assert MissingErrors(fs, note) == MissingErrors(prefix, note) + last;
      MissingErrorsReported(prefix, note);
      forall k | 0 <= k < |fs| && Mandatory(fs[k]) && FieldValue(note, fs[k].name) == ""
        ensures MissingMessage(fs[k]) in MissingErrors(fs, note)
      {
        if k < n {
          assert prefix[k] == fs[k];
        }
      }
    }
  }

  /** A note is valid exactly when its mandatory fields are present, a cloze
      note carries a marker, and a type with choice fields has at least two
      of them filled and a well-formed answer. */
  lemma ValidateIff(note: Note, config: NoteTypeConfig)
    ensures ValidateSpec(note, config) == Ok([]) <==>
      (forall k :: 0 <= k < |config.fields| && Mandatory(config.fields[k]) ==>
         FieldValue(note, config.fields[k].name) != "")
      && (config.isCloze ==> HasCloze(note))
      && (|ChoiceNames(config.fields)| > 0 ==>
            PopulatedCount(ChoiceNames(config.fields), note) >= 2
            && ChoiceAnswers(note, ChoiceNames(config.fields)) == Ok([]))
    ensures ValidateSpec(note, config).Ok? ==>
      forall k ::
        (0 <= k < |config.fields| && Mandatory(config.fields[k])
         && FieldValue(note, config.fields[k].name) == "") ==>
        MissingMessage(config.fields[k]) in ValidateSpec(note, config).value
  {
    MissingErrorsIff(config.fields, note);
    var base := MissingErrors(config.fields, note)
      + (if config.isCloze && !HasCloze(note) then [ClozeMessage(note.noteType)] else []);
    assert base == [] <==> MissingErrors(config.fields, note) == [] && !(config.isCloze && !HasCloze(note));
    var names := ChoiceNames(config.fields);
    if |names| > 0 {
      var countErrors := if PopulatedCount(names, note) < 2 then [ChoiceCountMessage(note.noteType)] else [];
      var answers := ChoiceAnswers(note, names);
      if answers.Ok? {
        assert |base + countErrors + answers.value| == |base| + |countErrors| + |answers.value|;
      }
    }
  }

  /** The field loop of `Note.validate`: missing-field messages, the
      choice field names and how many of them are filled. */
  method ScanNoteFields(note: Note, fs: seq<Field>) returns (errors: seq<string>, choiceFields: seq<string>, choiceCount: nat)
    ensures errors == MissingErrors(fs, note)
    ensures choiceFields == ChoiceNames(fs)
    ensures choiceCount == PopulatedCount(choiceFields, note)
  {
    errors, choiceFields, choiceCount := [], [], 0;
    var i := 0;
    while i < |fs|
      invariant 0 <= i <= |fs|
      invariant errors == MissingErrors(fs[..i], note)
      invariant choiceFields == ChoiceNames(fs[..i])
      invariant choiceCount == PopulatedCount(choiceFields, note)
    {
      var f := fs[i];
      assert fs[..i + 1][..i] == fs[..i];
      if IsChoiceName(f.name) {
        choiceFields := choiceFields + [f.name];
        assert choiceFields[..|choiceFields| - 1] == ChoiceNames(fs[..i]);
        if FieldValue(note, f.name) != "" {
          choiceCount := choiceCount + 1;
        }
      } else if f.prefix.Some? && f.identifying && FieldValue(note, f.name) == "" {
        errors := errors + [MissingMessage(f)];
      }
      i := i + 1;
    }
    assert fs[..i] == fs;
  }

  /** `Note.validate`: the field loop, then the cloze and choice rules. */
  method Validate(note: Note, config: NoteTypeConfig) returns (r: Result<seq<string>>)
    ensures r == ValidateSpec(note, config)
  {
    var errors, choiceFields, choiceCount := ScanNoteFields(note, config.fields);
    var hasChoices := exists k | 0 <= k < |config.fields| :: IsChoiceName(config.fields[k].name);
    assert hasChoices <==> |choiceFields| > 0;
    if config.isCloze && !HasCloze(note) {
      errors := errors + [ClozeMessage(note.noteType)];
    }
    assert errors == MissingErrors(config.fields, note)
      + (if config.isCloze && !HasCloze(note) then [ClozeMessage(note.noteType)] else []);
    if !hasChoices {
      assert ValidateSpec(note, config) == Ok(errors);
      return Ok(errors);
    }
    var countErrors := if choiceCount < 2 then [ChoiceCountMessage(note.noteType)] else [];
    errors := errors + countErrors;
    var answerErrors := ChoiceAnswers(note, choiceFields);
    if answerErrors.Err? {
      assert ValidateSpec(note, config) == Err(answerErrors.error);
      return Err(answerErrors.error);
    }
    errors := errors + answerErrors.value;
    assert ValidateSpec(note, config) == Ok(errors);
    return Ok(errors);
  }
}
