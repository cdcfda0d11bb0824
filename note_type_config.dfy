/** The note-type registry: the five built-in types, the common fields every
    type carries, and the checks a type must pass before it is registered. */
module NoteTypes {
  import opened Wrappers
  import opened Dicts

  datatype Field = Field(name: string, prefix: string)

  /** `COMMON_FIELDS`. */
  const CommonFields: seq<Field> := [Field("Extra", "E:"), Field("More", "M:"), Field("Source", "S:"), Field("AI Notes", "AI:")]

  const QAFields: seq<Field> := [Field("Question", "Q:"), Field("Answer", "A:")]
  const ReversedFields: seq<Field> := [Field("Front", "F:"), Field("Back", "B:")]
  const ClozeFields: seq<Field> := [Field("Text", "T:")]
  const InputFields: seq<Field> := [Field("Question", "Q:"), Field("Input", "I:")]
  const ChoiceTypeFields: seq<Field> := [
    Field("Question", "Q:"),
    Field("Choice 1", "C1:"), Field("Choice 2", "C2:"), Field("Choice 3", "C3:"), Field("Choice 4", "C4:"),
    Field("Choice 5", "C5:"), Field("Choice 6", "C6:"), Field("Choice 7", "C7:"), Field("Choice 8", "C8:"),
    Field("Answer", "A:")]

  /** A note type. Its template directory is not modelled. */
  datatype NoteTypeConfig = NoteTypeConfig(name: string, fields: seq<Field>, isCloze: bool, isReversed: bool,
                                           hasChoices: bool, custom: bool)

  /** The five built-in types, in registration order. */
  const BuiltinConfigs: seq<NoteTypeConfig> := [
    NoteTypeConfig("AnkiOpsQA", QAFields, false, false, false, false),
    NoteTypeConfig("AnkiOpsReversed", ReversedFields, false, true, false, false),
    NoteTypeConfig("AnkiOpsCloze", ClozeFields, true, false, false, false),
    NoteTypeConfig("AnkiOpsInput", InputFields, false, false, false, false),
    NoteTypeConfig("AnkiOpsChoice", ChoiceTypeFields, false, false, true, false)]

  const BuiltinNames: seq<string> := ["AnkiOpsQA", "AnkiOpsReversed", "AnkiOpsCloze", "AnkiOpsInput", "AnkiOpsChoice"]

  /** `NoteTypeConfig.identifying_prefixes`: the prefixes of all its fields. */
  function IdentifyingPrefixes(config: NoteTypeConfig): set<string> {
    PrefixesOf(config.fields)
  }

  /** The position of the first field with the prefix. */
  function PrefixIndex(fields: seq<Field>, prefix: string): (r: Option<nat>)
    ensures r.None? <==> forall i :: 0 <= i < |fields| ==> fields[i].prefix != prefix
    ensures r.Some? ==> (r.value < |fields| && fields[r.value].prefix == prefix
                         && forall j :: 0 <= j < r.value ==> fields[j].prefix != prefix)
    decreases |fields|
  {
    if |fields| == 0 then None
    else if fields[0].prefix == prefix then Some(0)
    else
      match PrefixIndex(fields[1..], prefix)
      case None => None
      case Some(i) => Some(i + 1)
  }

  /** `NoteTypeConfig.get_field_by_prefix`: the first field with the prefix. */
  function FieldByPrefix(fields: seq<Field>, prefix: string): (r: Option<Field>)
    ensures r.None? <==> forall i :: 0 <= i < |fields| ==> fields[i].prefix != prefix
    ensures r.Some? ==> r.value in fields && r.value.prefix == prefix
  {
    match PrefixIndex(fields, prefix)
    case None => None
    case Some(i) => Some(fields[i])
  }

  function NamesOf(fields: seq<Field>): set<string> {
    set f | f in fields :: f.name
  }

  function PrefixesOf(fields: seq<Field>): set<string> {
    set f | f in fields :: f.prefix
  }

  /** `_COMMON_NAMES` and `_COMMON_PREFIXES`; `CommonKnown` shows they are
      the names and prefixes of `CommonFields`. */
  const CommonNames: set<string> := {"Extra", "More", "Source", "AI Notes"}
  const CommonPrefixes: set<string> := {"E:", "M:", "S:", "AI:"}

  /** Why `register` refuses a type (the source raises `ValueError`). */
  datatype RegistryError =
    | ReservedPrefix(typeName: string, custom: bool, prefix: string)
    | ReservedName(typeName: string, custom: bool, fieldName: string)
    | PrefixConflict(prefix: string, existingName: string, fieldName: string, typeName: string)
    | IdenticalPrefixes(typeName: string, existingName: string, prefixes: set<string>)

  // ---------------------------------------------------------------- _validate_reservation

  /** The reservation check of one field. */
  function FieldReservation(config: NoteTypeConfig, f: Field, builtinNames: set<string>, builtinPrefixes: set<string>)
    : (r: Option<RegistryError>)
    ensures r.None? <==>
      f.prefix !in CommonPrefixes && f.name !in CommonNames
      && (config.custom ==> f.prefix !in builtinPrefixes && f.name !in builtinNames)
  {
    var reservedPrefixes := if config.custom then CommonPrefixes + builtinPrefixes else CommonPrefixes;
    var reservedNames := if config.custom then CommonNames + builtinNames else CommonNames;
    if f.prefix in reservedPrefixes then Some(ReservedPrefix(config.name, config.custom, f.prefix))
    else if f.name in reservedNames then Some(ReservedName(config.name, config.custom, f.name))
    else None
  }

  /** `_validate_reservation` over the first `n` fields: the first failure. */
  function ReservationError(config: NoteTypeConfig, n: nat, builtinNames: set<string>, builtinPrefixes: set<string>)
    : (r: Option<RegistryError>)
    requires n <= |config.fields|
    ensures r.None? <==> forall i :: 0 <= i < n ==> FieldReservation(config, config.fields[i], builtinNames, builtinPrefixes).None?
  {
    if n == 0 then None
    else
      var prev := ReservationError(config, n - 1, builtinNames, builtinPrefixes);
      if prev.Some? then prev else FieldReservation(config, config.fields[n - 1], builtinNames, builtinPrefixes)
  }

  /** Custom types may use neither common nor built-in names or prefixes;
      other types may use no common name or prefix. */
  lemma ReservationIff(config: NoteTypeConfig, builtinNames: set<string>, builtinPrefixes: set<string>)
    ensures ReservationError(config, |config.fields|, builtinNames, builtinPrefixes).None? <==>
      (forall i :: 0 <= i < |config.fields| ==>
         config.fields[i].prefix !in CommonPrefixes && config.fields[i].name !in CommonNames)
      && (config.custom ==> forall i :: 0 <= i < |config.fields| ==>
            config.fields[i].prefix !in builtinPrefixes && config.fields[i].name !in builtinNames)
  {
  }

  method ValidateReservation(config: NoteTypeConfig, builtinNames: set<string>, builtinPrefixes: set<string>)
    returns (err: Option<RegistryError>)
    ensures err == ReservationError(config, |config.fields|, builtinNames, builtinPrefixes)
  {
    var i := 0;
    while i < |config.fields|
      invariant 0 <= i <= |config.fields|
      invariant ReservationError(config, i, builtinNames, builtinPrefixes).None?
    {
      err := FieldReservation(config, config.fields[i], builtinNames, builtinPrefixes);
      if err.Some? {
        ReservationSticks(config, i + 1, builtinNames, builtinPrefixes);
        return;
      }
      i := i + 1;
    }
    return None;
  }

  lemma {:induction false} ReservationSticks(config: NoteTypeConfig, n: nat, builtinNames: set<string>, builtinPrefixes: set<string>)
    requires n <= |config.fields| && ReservationError(config, n, builtinNames, builtinPrefixes).Some?
    ensures ReservationError(config, |config.fields|, builtinNames, builtinPrefixes)
         == ReservationError(config, n, builtinNames, builtinPrefixes)
    decreases |config.fields| - n
  {
    if n < |config.fields| {
      ReservationSticks(config, n + 1, builtinNames, builtinPrefixes);
    }
  }

  // ---------------------------------------------------------------- prefix_to_field

  /** `mapping[field.prefix] = field.name` for each field, in order. */
  function PutFields(d: Dict<string, string>, fields: seq<Field>): (r: Dict<string, string>)
    requires d.Valid()
    ensures r.Valid()
    decreases |fields|
  {
    if |fields| == 0 then d
    else
      var n := |fields| - 1;
      Put(PutFields(d, fields[..n]), fields[n].prefix, fields[n].name)
  }

  /** The table has the old keys and the prefixes of the fields. */
  lemma {:induction false} PutFieldsKeys(d: Dict<string, string>, fields: seq<Field>)
    requires d.Valid()
    ensures PutFields(d, fields).items.Keys == d.items.Keys + PrefixesOf(fields)
    decreases |fields|
  {
    if |fields| > 0 {
      PrefixesSnoc(fields);
      PutFieldsKeys(d, fields[..|fields| - 1]);
    }
  }

  lemma PrefixesSnoc(fields: seq<Field>)
    requires |fields| > 0
    ensures PrefixesOf(fields) == PrefixesOf(fields[..|fields| - 1]) + {fields[|fields| - 1].prefix}
  {
    var n := |fields| - 1;
    forall p | p in PrefixesOf(fields) ensures p in PrefixesOf(fields[..n]) + {fields[n].prefix} {
      var f :| f in fields && f.prefix == p;
      var i :| 0 <= i < |fields| && fields[i] == f;
      if i < n {
        assert fields[..n][i] == f;
      }
    }
  }

  /** Putting two field lists one after the other is putting their
      concatenation. */
  lemma {:induction false} PutFieldsAppend(d: Dict<string, string>, a: seq<Field>, b: seq<Field>)
    requires d.Valid()
    ensures PutFields(d, a + b) == PutFields(PutFields(d, a), b)
    decreases |b|
  {
    if |b| == 0 {
      assert a + b == a;
    } else {
      var n := |b| - 1;
      assert (a + b)[..|a + b| - 1] == a + b[..n];
      PutFieldsAppend(d, a, b[..n]);
    }
  }

  /** The loop `for field in fields: mapping[field.prefix] = field.name`. */
  method PutEach(d: Dict<string, string>, fields: seq<Field>) returns (r: Dict<string, string>)
    requires d.Valid()
    ensures r == PutFields(d, fields)
  {
    r := d;
    var j := 0;
    while j < |fields|
      invariant 0 <= j <= |fields|
      invariant r == PutFields(d, fields[..j])
    {
      assert fields[..j + 1][..j] == fields[..j];
      r := Put(r, fields[j].prefix, fields[j].name);
      j := j + 1;
    }
    assert fields[..j] == fields;
  }

  /** One more type's fields extend the table of those before it. */
  lemma TableStep(d: Dict<string, string>, names: seq<string>, configs: map<string, NoteTypeConfig>, i: nat)
    requires d.Valid()
    requires forall k :: 0 <= k < |names| ==> names[k] in configs
    requires i < |names|
    ensures PutFields(d, FieldsOfTypes(names[..i + 1], configs))
         == PutFields(PutFields(d, FieldsOfTypes(names[..i], configs)), configs[names[i]].fields)
  {
    assert names[..i + 1][..i] == names[..i];
    PutFieldsAppend(d, FieldsOfTypes(names[..i], configs), configs[names[i]].fields);
  }

  /** Every field of the types listed in `names`, in order. */
  function FieldsOfTypes(names: seq<string>, configs: map<string, NoteTypeConfig>): seq<Field>
    requires forall i :: 0 <= i < |names| ==> names[i] in configs
    decreases |names|
  {
    if |names| == 0 then []
    else
      var n := |names| - 1;
      FieldsOfTypes(names[..n], configs) + configs[names[n]].fields
  }

  /** The field list `prefix_to_field` walks: the common fields, then every
      registered type's fields in registration order. */
  function TableFields(configs: Dict<string, NoteTypeConfig>): seq<Field>
    requires configs.Valid()
  {
    CommonFields + FieldsOfTypes(configs.keys, configs.items)
  }

  /** `prefix_to_field` as a function of the registered types. */
  function PrefixTable(configs: Dict<string, NoteTypeConfig>): Dict<string, string>
    requires configs.Valid()
  {
    PutFields(CommonTable(), FieldsOfTypes(configs.keys, configs.items))
  }

  /** The table of the common fields alone. */
  function CommonTable(): (r: Dict<string, string>)
    ensures r.Valid()
  {
    PutFields(Empty(), CommonFields)
  }

  /** The table is that of the whole walked field list. */
  lemma PrefixTableFlat(configs: Dict<string, NoteTypeConfig>)
    requires configs.Valid()
    ensures PrefixTable(configs) == PutFields(Empty(), TableFields(configs))
  {
    PutFieldsAppend(Empty(), CommonFields, FieldsOfTypes(configs.keys, configs.items));
  }

  /** A field is in the walked list exactly when it is common or belongs to
      a registered type. */
  lemma {:induction false} FieldsOfTypesMembers(names: seq<string>, configs: map<string, NoteTypeConfig>, f: Field)
    requires forall i :: 0 <= i < |names| ==> names[i] in configs
    ensures f in FieldsOfTypes(names, configs) <==> exists i :: 0 <= i < |names| && f in configs[names[i]].fields
    decreases |names|
  {
    if |names| > 0 {
      var n := |names| - 1;
      assert forall i :: 0 <= i < n ==> names[..n][i] == names[i];
      FieldsOfTypesMembers(names[..n], configs, f);
    }
  }

  /** Registered: common, or a field of some registered type. */
  ghost predicate Registered(configs: Dict<string, NoteTypeConfig>, f: Field) {
    f in CommonFields || exists name :: name in configs.items && f in configs.items[name].fields
  }

  lemma TableFieldsMembers(configs: Dict<string, NoteTypeConfig>, f: Field)
    requires configs.Valid()
    ensures f in TableFields(configs) <==> Registered(configs, f)
  {
    FieldsOfTypesMembers(configs.keys, configs.items, f);
    KeysListed(configs);
    if exists name :: name in configs.items && f in configs.items[name].fields {
      var name :| name in configs.items && f in configs.items[name].fields;
      var i :| 0 <= i < |configs.keys| && configs.keys[i] == name;
    }
  }

  /** `prefix_to_field` maps exactly the prefixes of the common and the
      registered fields. */
  lemma PrefixTableKeys(configs: Dict<string, NoteTypeConfig>)
    requires configs.Valid()
    ensures forall p :: p in PrefixTable(configs).items <==> exists f :: Registered(configs, f) && f.prefix == p
  {
    forall p ensures p in PrefixTable(configs).items <==> exists f :: Registered(configs, f) && f.prefix == p {
      PrefixTableKey(configs, p);
    }
  }

  lemma PrefixTableKey(configs: Dict<string, NoteTypeConfig>, p: string)
    requires configs.Valid()
    ensures p in PrefixTable(configs).items <==> exists f :: Registered(configs, f) && f.prefix == p
  {
    var fields := TableFields(configs);
    PrefixTableFlat(configs);
    PutFieldsKeys(Empty(), fields);
    assert p in PrefixTable(configs).items <==> p in PrefixesOf(fields);
    if p in PrefixesOf(fields) {
      var f :| f in fields && f.prefix == p;
      TableFieldsMembers(configs, f);
    }
    if exists f :: Registered(configs, f) && f.prefix == p {
      var f :| Registered(configs, f) && f.prefix == p;
      TableFieldsMembers(configs, f);
    }
  }

  /** No two fields of the list share a prefix under different names. */
  ghost predicate Coherent(fields: seq<Field>) {
    forall i, j :: 0 <= i < |fields| && 0 <= j < |fields| && fields[i].prefix == fields[j].prefix ==>
      fields[i].name == fields[j].name
  }

  /** Over a coherent field list the table sends each prefix to the name of
      its fields. */
  lemma PutFieldsCoherent(fields: seq<Field>)
    requires Coherent(fields)
    ensures forall i :: 0 <= i < |fields| ==>
      fields[i].prefix in PutFields(Empty(), fields).items
      && PutFields(Empty(), fields).items[fields[i].prefix] == fields[i].name
  {
    forall i | 0 <= i < |fields|
      ensures fields[i].prefix in PutFields(Empty(), fields).items
      ensures PutFields(Empty(), fields).items[fields[i].prefix] == fields[i].name
    {
      PutFieldsLookup(fields, i);
    }
  }

  lemma {:induction false} PutFieldsLookup(fields: seq<Field>, i: nat)
    requires Coherent(fields) && i < |fields|
    ensures fields[i].prefix in PutFields(Empty(), fields).items
    ensures PutFields(Empty(), fields).items[fields[i].prefix] == fields[i].name
    decreases |fields|
  {
    var n := |fields| - 1;
    if i < n && fields[i].prefix != fields[n].prefix {
      CoherentInit(fields);
      assert fields[..n][i] == fields[i];
      PutFieldsLookup(fields[..n], i);
    }
  }

  lemma CoherentInit(fields: seq<Field>)
    requires |fields| > 0 && Coherent(fields)
    ensures Coherent(fields[..|fields| - 1])
  {
    var init := fields[..|fields| - 1];
    forall i, j | 0 <= i < |init| && 0 <= j < |init| && init[i].prefix == init[j].prefix
      ensures init[i].name == init[j].name
    {
      assert init[i] == fields[i] && init[j] == fields[j];
    }
  }

  /** `field_to_prefix`. */
  function FieldToPrefix(configs: Dict<string, NoteTypeConfig>): Dict<string, string>
    requires configs.Valid()
  {
    Invert(PrefixTable(configs))
  }

  /** `field_to_prefix` has every field name of the table as a key and
      leads back through `prefix_to_field` to that name. */
  lemma FieldToPrefixInverse(configs: Dict<string, NoteTypeConfig>)
    requires configs.Valid()
    ensures FieldToPrefix(configs).items.Keys == PrefixTable(configs).items.Values
    ensures forall n :: n in FieldToPrefix(configs).items ==>
      FieldToPrefix(configs).items[n] in PrefixTable(configs).items
      && PrefixTable(configs).items[FieldToPrefix(configs).items[n]] == n
  {
    InvertIsRightInverse(PrefixTable(configs));
  }

  // ---------------------------------------------------------------- _validate_global_consistency

  /** A field clashes with the table when its prefix is mapped to another name. */
  function FieldConflict(config: NoteTypeConfig, f: Field, table: map<string, string>): Option<RegistryError> {
    if f.prefix in table && table[f.prefix] != f.name then Some(PrefixConflict(f.prefix, table[f.prefix], f.name, config.name))
    else None
  }

  /** `_validate_global_consistency` over the first `n` fields, against the
      table of the types registered before the call. */
  function ConsistencyError(config: NoteTypeConfig, n: nat, table: map<string, string>): (r: Option<RegistryError>)
    requires n <= |config.fields|
    ensures r.None? <==> forall i :: 0 <= i < n ==> FieldConflict(config, config.fields[i], table).None?
  {
    if n == 0 then None
    else
      var prev := ConsistencyError(config, n - 1, table);
      if prev.Some? then prev else FieldConflict(config, config.fields[n - 1], table)
  }

  lemma {:induction false} ConsistencySticks(config: NoteTypeConfig, n: nat, table: map<string, string>)
    requires n <= |config.fields| && ConsistencyError(config, n, table).Some?
    ensures ConsistencyError(config, |config.fields|, table) == ConsistencyError(config, n, table)
    decreases |config.fields| - n
  {
    if n < |config.fields| {
      ConsistencySticks(config, n + 1, table);
    }
  }

  /** The check as written: the type's fields are compared with the table
      only, never with one another. */
  method ValidateGlobalConsistency(config: NoteTypeConfig, table: map<string, string>) returns (err: Option<RegistryError>)
    ensures err == ConsistencyError(config, |config.fields|, table)
  {
    var i := 0;
    while i < |config.fields|
      invariant 0 <= i <= |config.fields|
      invariant ConsistencyError(config, i, table).None?
    {
      err := FieldConflict(config, config.fields[i], table);
      if err.Some? {
        ConsistencySticks(config, i + 1, table);
        return;
      }
      i := i + 1;
    }
    return None;
  }

  /** The table extended with the type's own first `n` fields. */
  function OwnTable(config: NoteTypeConfig, n: nat, table: map<string, string>): map<string, string>
    requires n <= |config.fields|
  {
    if n == 0 then table
    else
      var t := OwnTable(config, n - 1, table);
      var f := config.fields[n - 1];
      if f.prefix in t then t else t[f.prefix := f.name]
  }

  /** The corrected check: each field is compared with the table and with
      the type's earlier fields. */
  function CoherenceError(config: NoteTypeConfig, n: nat, table: map<string, string>): (r: Option<RegistryError>)
    requires n <= |config.fields|
  {
    if n == 0 then None
    else
      var prev := CoherenceError(config, n - 1, table);
      if prev.Some? then prev else FieldConflict(config, config.fields[n - 1], OwnTable(config, n - 1, table))
  }

  /** The first `n` fields agree with the table and with one another. */
  ghost predicate Agrees(config: NoteTypeConfig, n: nat, table: map<string, string>)
    requires n <= |config.fields|
  {
    AgreesWithTable(config, n, table) && AgreesWithItself(config, n)
  }

  ghost predicate AgreesWithTable(config: NoteTypeConfig, n: nat, table: map<string, string>)
    requires n <= |config.fields|
  {
    forall i :: 0 <= i < n && config.fields[i].prefix in table ==> table[config.fields[i].prefix] == config.fields[i].name
  }

  ghost predicate AgreesWithItself(config: NoteTypeConfig, n: nat)
    requires n <= |config.fields|
  {
    forall i, j :: 0 <= i < n && 0 <= j < n && config.fields[i].prefix == config.fields[j].prefix ==>
      config.fields[i].name == config.fields[j].name
  }

  /** The extended table keeps the old entries and adds the fields' prefixes. */
  lemma {:induction false} OwnTableKeys(config: NoteTypeConfig, n: nat, table: map<string, string>)
    requires n <= |config.fields|
    ensures forall p :: p in OwnTable(config, n, table) <==>
      (p in table || exists i :: 0 <= i < n && config.fields[i].prefix == p)
    ensures forall p :: p in table ==> OwnTable(config, n, table)[p] == table[p]
    ensures forall i :: 0 <= i < n ==> config.fields[i].prefix in OwnTable(config, n, table)
    decreases n
  {
    if n > 0 {
      OwnTableKeys(config, n - 1, table);
    }
  }

  /** Agreement of the first `n` fields implies that of fewer. */
  lemma AgreesPrefix(config: NoteTypeConfig, n: nat, table: map<string, string>)
    requires 0 < n <= |config.fields| && Agrees(config, n, table)
    ensures Agrees(config, n - 1, table)
  {
  }

  /** Over agreeing fields the extended table sends each field's prefix to
      its name. */
  lemma {:induction false} OwnTableValues(config: NoteTypeConfig, n: nat, table: map<string, string>)
    requires n <= |config.fields| && Agrees(config, n, table)
    ensures forall i :: 0 <= i < n ==>
      config.fields[i].prefix in OwnTable(config, n, table)
      && OwnTable(config, n, table)[config.fields[i].prefix] == config.fields[i].name
    decreases n
  {
    if n > 0 {
      var fs := config.fields;
      AgreesPrefix(config, n, table);
      OwnTableKeys(config, n - 1, table);
      OwnTableValues(config, n - 1, table);
      var t := OwnTable(config, n - 1, table);
      var f := fs[n - 1];
      if f.prefix in t {
        if f.prefix in table {
          assert t[f.prefix] == table[f.prefix];
        } else {
          var k :| 0 <= k < n - 1 && fs[k].prefix == f.prefix;
          assert t[fs[k].prefix] == fs[k].name;
        }
        assert t[f.prefix] == f.name;
      }
    }
  }

  /** A field that agrees with the table and the earlier fields does not
      clash with the extended table. */
  lemma NoConflictAtLast(config: NoteTypeConfig, n: nat, table: map<string, string>)
    requires 0 < n <= |config.fields| && Agrees(config, n, table)
    ensures FieldConflict(config, config.fields[n - 1], OwnTable(config, n - 1, table)).None?
  {
    OwnTableValues(config, n, table);
    assert config.fields[n - 1].prefix in OwnTable(config, n, table);
  }

  /** A field that breaks agreement clashes with the extended table. */
  lemma ConflictAtLast(config: NoteTypeConfig, n: nat, table: map<string, string>)
    requires 0 < n <= |config.fields| && Agrees(config, n - 1, table) && !Agrees(config, n, table)
    ensures FieldConflict(config, config.fields[n - 1], OwnTable(config, n - 1, table)).Some?
  {
    var fs := config.fields;
    var t := OwnTable(config, n - 1, table);
    var f := fs[n - 1];
    OwnTableKeys(config, n - 1, table);
    if f.prefix in table && table[f.prefix] != f.name {
      assert t[f.prefix] == table[f.prefix];
    } else {
      var k := LastSelfConflict(config, n, table);
      OwnTableValues(config, n - 1, table);
      assert t[fs[k].prefix] == fs[k].name;
    }
  }

  /** When agreement with the table holds for the last field, a failure of
      agreement lies between the last field and an earlier one. */
  lemma LastSelfConflict(config: NoteTypeConfig, n: nat, table: map<string, string>) returns (k: nat)
    requires 0 < n <= |config.fields| && Agrees(config, n - 1, table) && !Agrees(config, n, table)
    requires config.fields[n - 1].prefix in table ==> table[config.fields[n - 1].prefix] == config.fields[n - 1].name
    ensures k < n - 1 && config.fields[k].prefix == config.fields[n - 1].prefix
      && config.fields[k].name != config.fields[n - 1].name
  {
    var fs := config.fields;
    assert AgreesWithTable(config, n, table);
    assert !AgreesWithItself(config, n);
    var i, j :| 0 <= i < n && 0 <= j < n && fs[i].prefix == fs[j].prefix && fs[i].name != fs[j].name;
    k := if i == n - 1 then j else i;
  }

  /** The corrected check passes exactly when every field agrees with the
      table and with the type's other fields. */
  lemma {:induction false} CoherenceErrorIff(config: NoteTypeConfig, n: nat, table: map<string, string>)
    requires n <= |config.fields|
    ensures CoherenceError(config, n, table).None? <==> Agrees(config, n, table)
    decreases n
  {
    if n > 0 {
      CoherenceErrorIff(config, n - 1, table);
      if Agrees(config, n, table) {
        AgreesPrefix(config, n, table);
        NoConflictAtLast(config, n, table);
      } else if Agrees(config, n - 1, table) {
        ConflictAtLast(config, n, table);
      }
    }
  }

  /** The corrected check as a loop that extends its own copy of the table. */
  method ValidateCoherence(config: NoteTypeConfig, table: map<string, string>) returns (err: Option<RegistryError>)
    ensures err == CoherenceError(config, |config.fields|, table)
  {
    var own := table;
    var i := 0;
    while i < |config.fields|
      invariant 0 <= i <= |config.fields|
      invariant CoherenceError(config, i, table).None?
      invariant own == OwnTable(config, i, table)
    {
      var f := config.fields[i];
      err := FieldConflict(config, f, own);
      if err.Some? {
        CoherenceSticks(config, i + 1, table);
        return;
      }
      if f.prefix !in own {
        own := own[f.prefix := f.name];
      }
      i := i + 1;
    }
    return None;
  }

  lemma {:induction false} CoherenceSticks(config: NoteTypeConfig, n: nat, table: map<string, string>)
    requires n <= |config.fields| && CoherenceError(config, n, table).Some?
    ensures CoherenceError(config, |config.fields|, table) == CoherenceError(config, n, table)
    decreases |config.fields| - n
  {
    if n < |config.fields| {
      CoherenceSticks(config, n + 1, table);
    }
  }

  // ---------------------------------------------------------------- _validate_distinctness

  /** Another registered type with the same identifying prefixes. */
  predicate Clashes(config: NoteTypeConfig, existingName: string, existing: NoteTypeConfig) {
    existingName != config.name && IdentifyingPrefixes(existing) == IdentifyingPrefixes(config)
  }

  /** `_validate_distinctness` over the first `n` registered types: the
      first other type with the same identifying prefixes. */
  function DistinctnessError(config: NoteTypeConfig, names: seq<string>, n: nat, configs: map<string, NoteTypeConfig>)
    : (r: Option<RegistryError>)
    requires n <= |names| && forall i :: 0 <= i < |names| ==> names[i] in configs
    ensures r.None? <==> forall i :: 0 <= i < n ==> !Clashes(config, names[i], configs[names[i]])
    decreases n
  {
    if n == 0 then None
    else
      var prev := DistinctnessError(config, names, n - 1, configs);
      if prev.Some? then prev
      else if Clashes(config, names[n - 1], configs[names[n - 1]])
      then Some(IdenticalPrefixes(config.name, names[n - 1], IdentifyingPrefixes(config)))
      else None
  }

  lemma {:induction false} DistinctnessSticks(config: NoteTypeConfig, names: seq<string>, n: nat, configs: map<string, NoteTypeConfig>)
    requires n <= |names| && forall i :: 0 <= i < |names| ==> names[i] in configs
    requires DistinctnessError(config, names, n, configs).Some?
    ensures DistinctnessError(config, names, |names|, configs) == DistinctnessError(config, names, n, configs)
    decreases |names| - n
  {
    if n < |names| {
      DistinctnessSticks(config, names, n + 1, configs);
    }
  }

  method ValidateDistinctness(config: NoteTypeConfig, configs: Dict<string, NoteTypeConfig>) returns (err: Option<RegistryError>)
    requires configs.Valid()
    ensures err == DistinctnessError(config, configs.keys, |configs.keys|, configs.items)
  {
    var newPrefixes := IdentifyingPrefixes(config);
    var i := 0;
    while i < |configs.keys|
      invariant 0 <= i <= |configs.keys|
      invariant DistinctnessError(config, configs.keys, i, configs.items).None?
    {
      var existingName := configs.keys[i];
      if existingName != config.name && newPrefixes == IdentifyingPrefixes(configs.items[existingName]) {
        err := Some(IdenticalPrefixes(config.name, existingName, newPrefixes));
        DistinctnessSticks(config, configs.keys, i + 1, configs.items);
        return;
      }
      i := i + 1;
    }
    return None;
  }

  // ---------------------------------------------------------------- register

  /** What `register` decides, with the corrected consistency check. */
  function RegisterError(config: NoteTypeConfig, configs: Dict<string, NoteTypeConfig>,
                         builtinNames: set<string>, builtinPrefixes: set<string>): Option<RegistryError>
    requires configs.Valid()
  {
    var reservation := ReservationError(config, |config.fields|, builtinNames, builtinPrefixes);
    if reservation.Some? then reservation
    else
      var coherence := CoherenceError(config, |config.fields|, PrefixTable(configs).items);
      if coherence.Some? then coherence
      else DistinctnessError(config, configs.keys, |configs.keys|, configs.items)
  }

  /** What `register` decides as written. */
  function RegisterErrorAsWritten(config: NoteTypeConfig, configs: Dict<string, NoteTypeConfig>,
                                  builtinNames: set<string>, builtinPrefixes: set<string>): Option<RegistryError>
    requires configs.Valid()
  {
    var reservation := ReservationError(config, |config.fields|, builtinNames, builtinPrefixes);
    if reservation.Some? then reservation
    else
      var consistency := ConsistencyError(config, |config.fields|, PrefixTable(configs).items);
      if consistency.Some? then consistency
      else DistinctnessError(config, configs.keys, |configs.keys|, configs.items)
  }

  /** All fields known to the registry agree on prefixes. */
  ghost predicate RegistryCoherent(configs: Dict<string, NoteTypeConfig>)
    requires configs.Valid()
  {
    forall f, g :: Registered(configs, f) && Registered(configs, g) && f.prefix == g.prefix ==> f.name == g.name
  }

  lemma CoherentTable(configs: Dict<string, NoteTypeConfig>)
    requires configs.Valid() && RegistryCoherent(configs)
    ensures forall f :: Registered(configs, f) ==>
      (f.prefix in PrefixTable(configs).items && PrefixTable(configs).items[f.prefix] == f.name)
  {
    var fields := TableFields(configs);
    TableFieldsCoherent(configs);
    PutFieldsCoherent(fields);
    PrefixTableFlat(configs);
    forall f | Registered(configs, f)
      ensures f.prefix in PrefixTable(configs).items && PrefixTable(configs).items[f.prefix] == f.name
    {
      TableFieldsMembers(configs, f);
      var i :| 0 <= i < |fields| && fields[i] == f;
    }
  }

  /** The walked field list of a coherent registry is coherent. */
  lemma TableFieldsCoherent(configs: Dict<string, NoteTypeConfig>)
    requires configs.Valid() && RegistryCoherent(configs)
    ensures Coherent(TableFields(configs))
  {
    var fields := TableFields(configs);
    forall i, j | 0 <= i < |fields| && 0 <= j < |fields| && fields[i].prefix == fields[j].prefix
      ensures fields[i].name == fields[j].name
    {
      TableFieldsMembers(configs, fields[i]);
      TableFieldsMembers(configs, fields[j]);
    }
  }

  /** A field known after storing a type is one of that type's fields or
      was known before. */
  lemma RegisteredAfterPut(configs: Dict<string, NoteTypeConfig>, config: NoteTypeConfig, f: Field)
    requires configs.Valid() && Registered(Put(configs, config.name, config), f)
    ensures f in config.fields || Registered(configs, f)
  {
    var next := Put(configs, config.name, config);
    if f !in CommonFields {
      var name :| name in next.items && f in next.items[name].fields;
      if name != config.name {
        assert name in configs.items && next.items[name] == configs.items[name];
      }
    }
  }

  /** A new field agreeing with the table agrees with every known field. */
  lemma AgreesWithKnown(config: NoteTypeConfig, configs: Dict<string, NoteTypeConfig>, i: nat, g: Field)
    requires configs.Valid() && RegistryCoherent(configs)
    requires i < |config.fields| && AgreesWithTable(config, |config.fields|, PrefixTable(configs).items)
    requires Registered(configs, g) && config.fields[i].prefix == g.prefix
    ensures config.fields[i].name == g.name
  {
    CoherentTable(configs);
  }

  /** A type accepted by the corrected checks keeps every prefix bound to a
      single field name across the registry. */
  lemma RegisterKeepsCoherence(config: NoteTypeConfig, configs: Dict<string, NoteTypeConfig>,
                               builtinNames: set<string>, builtinPrefixes: set<string>)
    requires configs.Valid() && RegistryCoherent(configs)
    requires RegisterError(config, configs, builtinNames, builtinPrefixes).None?
    ensures RegistryCoherent(Put(configs, config.name, config))
  {
    var n := |config.fields|;
    assert CoherenceError(config, n, PrefixTable(configs).items).None?;
    CoherenceErrorIff(config, n, PrefixTable(configs).items);
    var next := Put(configs, config.name, config);
    forall f, g | Registered(next, f) && Registered(next, g) && f.prefix == g.prefix ensures f.name == g.name {
      RegisteredAfterPut(configs, config, f);
      RegisteredAfterPut(configs, config, g);
      AgreeingPair(config, configs, f, g);
    }
  }

  /** What the registry keeps true: types sit under their own names and
      all known fields agree on prefixes. */
  ghost predicate RegistryValid(configs: Dict<string, NoteTypeConfig>) {
    configs.Valid() && (forall n :: n in configs.items ==> configs.items[n].name == n)
    && RegistryCoherent(configs)
  }

  /** `register` keeps the registry valid when it stores a type. */
  lemma RegisterKeepsValid(config: NoteTypeConfig, configs: Dict<string, NoteTypeConfig>,
                           builtinNames: set<string>, builtinPrefixes: set<string>)
    requires RegistryValid(configs)
    requires RegisterError(config, configs, builtinNames, builtinPrefixes).None?
    ensures RegistryValid(Put(configs, config.name, config))
  {
    RegisterKeepsCoherence(config, configs, builtinNames, builtinPrefixes);
  }

  /** Two fields, each new or known, that share a prefix share a name. */
  lemma AgreeingPair(config: NoteTypeConfig, configs: Dict<string, NoteTypeConfig>, f: Field, g: Field)
    requires configs.Valid() && RegistryCoherent(configs)
    requires AgreesWithTable(config, |config.fields|, PrefixTable(configs).items)
    requires AgreesWithItself(config, |config.fields|)
    requires f in config.fields || Registered(configs, f)
    requires g in config.fields || Registered(configs, g)
    requires f.prefix == g.prefix
    ensures f.name == g.name
  {
    var n := |config.fields|;
    if f in config.fields && g in config.fields {
      var i :| 0 <= i < n && config.fields[i] == f;
      var j :| 0 <= j < n && config.fields[j] == g;
    } else if f in config.fields {
      var i :| 0 <= i < n && config.fields[i] == f;
      AgreesWithKnown(config, configs, i, g);
    } else if g in config.fields {
      var j :| 0 <= j < n && config.fields[j] == g;
      AgreesWithKnown(config, configs, j, f);
    }
  }

  // ---------------------------------------------------------------- NoteTypeRegistry

  class NoteTypeRegistry {
    var configs: Dict<string, NoteTypeConfig>
    /** `_BUILTIN_NAMES` and `_BUILTIN_PREFIXES`, filled by the constructor. */
    var builtinNames: set<string>
    var builtinPrefixes: set<string>

    ghost predicate Valid()
      reads this
    {
      RegistryValid(configs)
    }

    /** `get`: the registered type, or `KeyError` for an unknown name. */
    function Get(name: string): (r: Result<NoteTypeConfig>)
      reads this
      ensures r.Ok? <==> name in configs.items
      ensures r.Ok? ==> r.value == configs.items[name]
      ensures r.Err? ==> r.error == "KeyError: Unknown note type: " + name
    {
      if name !in configs.items then Err("KeyError: Unknown note type: " + name) else Ok(configs.items[name])
    }

    /** `supported_note_types`: the registered names in registration order. */
    function SupportedNoteTypes(): seq<string>
      reads this
    {
      configs.keys
    }

    /** `note_config`: each type's own fields, then the four common fields. */
    function NoteConfig(): (r: map<string, seq<(string, string)>>)
      reads this
      ensures r.Keys == configs.items.Keys
      ensures forall n :: n in r ==>
        |r[n]| == |configs.items[n].fields| + |CommonFields|
        && (forall i :: 0 <= i < |configs.items[n].fields| ==>
              r[n][i] == (configs.items[n].fields[i].name, configs.items[n].fields[i].prefix))
        && forall i :: 0 <= i < |CommonFields| ==>
              r[n][|configs.items[n].fields| + i] == (CommonFields[i].name, CommonFields[i].prefix)
    {
      map n | n in configs.items :: Pairs(configs.items[n].fields) + Pairs(CommonFields)
    }

    /** `identifying_fields`: each type's own fields as (name, prefix) pairs;
        `note_config` is this with the common pairs appended. */
    function IdentifyingFields(): (r: map<string, seq<(string, string)>>)
      reads this
      ensures r.Keys == configs.items.Keys
      ensures forall n :: n in r ==>
        |r[n]| == |configs.items[n].fields|
        && (forall i :: 0 <= i < |r[n]| ==>
              r[n][i] == (configs.items[n].fields[i].name, configs.items[n].fields[i].prefix))
        && NoteConfig()[n] == r[n] + Pairs(CommonFields)
    {
      map n | n in configs.items :: Pairs(configs.items[n].fields)
    }

    /** `prefix_to_field`: the common fields, then each registered type's
        fields, later entries overwriting earlier ones. */
    method PrefixToField() returns (mapping: Dict<string, string>)
      requires Valid()
      ensures mapping == PrefixTable(configs)
    {
      mapping := BuildPrefixTable(configs);
    }

    /** `register`, with the corrected consistency check: the type is stored
        only when every check passes; otherwise nothing changes. */
    method Register(config: NoteTypeConfig) returns (err: Option<RegistryError>)
      requires Valid()
      modifies this
      ensures Valid()
      ensures err == RegisterError(config, old(configs), old(builtinNames), old(builtinPrefixes))
      ensures err.None? ==> configs == Put(old(configs), config.name, config)
      ensures err.Some? ==> configs == old(configs)
      ensures builtinNames == old(builtinNames) && builtinPrefixes == old(builtinPrefixes)
    {
      err := ValidateRegistration(config, configs, builtinNames, builtinPrefixes);
      if err.None? {
        RegisterKeepsValid(config, configs, builtinNames, builtinPrefixes);
        configs := Put(configs, config.name, config);
      }
    }

    /** `__init__`: fills the reserved built-in names and prefixes, then
        registers the five built-in types, each of which passes the checks. */
    constructor ()
      ensures Valid()
      ensures configs == BuiltinPrefix(|BuiltinConfigs|)
      ensures builtinNames == BuiltinFieldNames(|BuiltinConfigs|)
      ensures builtinPrefixes == BuiltinFieldPrefixes(|BuiltinConfigs|)
    {
      var names, prefixes := CollectBuiltinFields();
      configs := Empty();
      builtinNames := names;
      builtinPrefixes := prefixes;
      new;
      BuiltinPrefixCoherent(0);
      var k := 0;
      while k < |BuiltinConfigs|
        invariant 0 <= k <= |BuiltinConfigs|
        invariant Valid()
        invariant configs == BuiltinPrefix(k)
        invariant builtinNames == BuiltinFieldNames(|BuiltinConfigs|)
        invariant builtinPrefixes == BuiltinFieldPrefixes(|BuiltinConfigs|)
      {
        RegisterBuiltin(k);
        k := k + 1;
      }
    }

    /** One round of the registering loop of `_initialize_builtins`. */
    method RegisterBuiltin(k: nat)
      requires k < |BuiltinConfigs| && Valid() && configs == BuiltinPrefix(k)
      modifies this
      ensures Valid() && configs == BuiltinPrefix(k + 1)
      ensures builtinNames == old(builtinNames) && builtinPrefixes == old(builtinPrefixes)
    {
      BuiltinRegisters(k, builtinNames, builtinPrefixes);
      var err := Register(BuiltinConfigs[k]);
    }
  }

  /** The three checks of `register`, in order: the first that fails. */
  method ValidateRegistration(config: NoteTypeConfig, configs: Dict<string, NoteTypeConfig>,
                              builtinNames: set<string>, builtinPrefixes: set<string>)
    returns (err: Option<RegistryError>)
    requires configs.Valid()
    ensures err == RegisterError(config, configs, builtinNames, builtinPrefixes)
  {
    err := ValidateReservation(config, builtinNames, builtinPrefixes);
    if err.Some? {
      return;
    }
    var table := BuildPrefixTable(configs);
    err := ValidateCoherence(config, table.items);
    if err.Some? {
      return;
    }
    err := ValidateDistinctness(config, configs);
  }

  /** The first loop of `prefix_to_field`, over the common fields. */
  method PutCommon() returns (mapping: Dict<string, string>)
    ensures mapping == CommonTable()
  {
    mapping := PutEach(Empty(), CommonFields);
  }

  /** The loops of `prefix_to_field` over a registry's types. */
  method BuildPrefixTable(configs: Dict<string, NoteTypeConfig>) returns (mapping: Dict<string, string>)
    requires configs.Valid()
    ensures mapping == PrefixTable(configs)
  {
    mapping := PutCommon();
    var names := configs.keys;
    var i := 0;
    while i < |names|
      invariant 0 <= i <= |names|
      invariant mapping == PutFields(CommonTable(), FieldsOfTypes(names[..i], configs.items))
    {
      mapping := PutEach(mapping, configs.items[names[i]].fields);
      TableStep(CommonTable(), names, configs.items, i);
      i := i + 1;
    }
    assert names[..i] == names;
  }

  /** The loop of `_initialize_builtins` that fills the reserved sets. */
  method CollectBuiltinFields() returns (names: set<string>, prefixes: set<string>)
    ensures names == BuiltinFieldNames(|BuiltinConfigs|) && prefixes == BuiltinFieldPrefixes(|BuiltinConfigs|)
  {
    names, prefixes := {}, {};
    var i := 0;
    while i < |BuiltinConfigs|
      invariant 0 <= i <= |BuiltinConfigs|
      invariant names == BuiltinFieldNames(i) && prefixes == BuiltinFieldPrefixes(i)
    {
      names, prefixes := AddFields(names, prefixes, BuiltinConfigs[i].fields);
      i := i + 1;
    }
  }

  /** The inner loop: one type's field names and prefixes join the sets. */
  method AddFields(names0: set<string>, prefixes0: set<string>, fields: seq<Field>)
    returns (names: set<string>, prefixes: set<string>)
    ensures names == names0 + NamesOf(fields) && prefixes == prefixes0 + PrefixesOf(fields)
  {
    names, prefixes := names0, prefixes0;
    var j := 0;
    while j < |fields|
      invariant 0 <= j <= |fields|
      invariant names == names0 + NamesOf(fields[..j])
      invariant prefixes == prefixes0 + PrefixesOf(fields[..j])
    {
      NamesSnoc(fields[..j + 1]);
      PrefixesSnoc(fields[..j + 1]);
      assert fields[..j + 1][..j] == fields[..j];
      names := names + {fields[j].name};
      prefixes := prefixes + {fields[j].prefix};
      j := j + 1;
    }
    assert fields[..j] == fields;
  }

  function Pairs(fields: seq<Field>): (r: seq<(string, string)>)
    ensures |r| == |fields| && forall i :: 0 <= i < |fields| ==> r[i] == (fields[i].name, fields[i].prefix)
  {
    seq(|fields|, i requires 0 <= i < |fields| => (fields[i].name, fields[i].prefix))
  }

  lemma NamesSnoc(fields: seq<Field>)
    requires |fields| > 0
    ensures NamesOf(fields) == NamesOf(fields[..|fields| - 1]) + {fields[|fields| - 1].name}
  {
    var n := |fields| - 1;
    forall x | x in NamesOf(fields) ensures x in NamesOf(fields[..n]) + {fields[n].name} {
      var f :| f in fields && f.name == x;
      var i :| 0 <= i < |fields| && fields[i] == f;
      if i < n {
        assert fields[..n][i] == f;
      }
    }
  }

  /** `_BUILTIN_NAMES` after the first `k` built-in types. */
  function BuiltinFieldNames(k: nat): set<string>
    requires k <= |BuiltinConfigs|
  {
    if k == 0 then {} else BuiltinFieldNames(k - 1) + NamesOf(BuiltinConfigs[k - 1].fields)
  }

  /** `_BUILTIN_PREFIXES` after the first `k` built-in types. */
  function BuiltinFieldPrefixes(k: nat): set<string>
    requires k <= |BuiltinConfigs|
  {
    if k == 0 then {} else BuiltinFieldPrefixes(k - 1) + PrefixesOf(BuiltinConfigs[k - 1].fields)
  }

  /** Every prefix the built-in and common fields use, with its one name. */
  const KnownPrefixes: map<string, string> := map[
    "E:" := "Extra", "M:" := "More", "S:" := "Source", "AI:" := "AI Notes",
    "Q:" := "Question", "A:" := "Answer", "F:" := "Front", "B:" := "Back", "T:" := "Text", "I:" := "Input",
    "C1:" := "Choice 1", "C2:" := "Choice 2", "C3:" := "Choice 3", "C4:" := "Choice 4",
    "C5:" := "Choice 5", "C6:" := "Choice 6", "C7:" := "Choice 7", "C8:" := "Choice 8"]

  ghost predicate Known(f: Field) {
    f.prefix in KnownPrefixes && KnownPrefixes[f.prefix] == f.name
  }

  lemma CommonKnown()
    ensures forall f :: f in CommonFields ==> Known(f)
    ensures CommonPrefixes == PrefixesOf(CommonFields)
    ensures CommonNames == NamesOf(CommonFields)
  {
  }

  ghost predicate AllKnown(fields: seq<Field>) {
    forall f :: f in fields ==> Known(f) && f.prefix !in {"E:", "M:", "S:", "AI:"}
  }

  ghost predicate NoCommonName(fields: seq<Field>) {
    forall f :: f in fields ==> f.name !in {"Extra", "More", "Source", "AI Notes"}
  }

  lemma FieldListsKnown()
    ensures AllKnown(QAFields) && AllKnown(ReversedFields) && AllKnown(ClozeFields) && AllKnown(InputFields)
  {
    QAKnown();
    ReversedKnown();
    InputKnown();
  }

  lemma QAKnown()
    ensures AllKnown(QAFields)
  {
  }

  lemma ReversedKnown()
    ensures AllKnown(ReversedFields)
  {
  }

  lemma InputKnown()
    ensures AllKnown(InputFields)
  {
  }

  lemma FieldListsNamed()
    ensures NoCommonName(QAFields) && NoCommonName(ReversedFields) && NoCommonName(ClozeFields)
    ensures NoCommonName(InputFields)
  {
  }

  lemma ChoiceHeadKnown()
    ensures AllKnown(ChoiceTypeFields[..3])
  {
  }

  lemma ChoiceMiddleKnown()
    ensures AllKnown(ChoiceTypeFields[3..6])
  {
  }

  lemma ChoiceTailKnown()
    ensures AllKnown(ChoiceTypeFields[6..8]) && AllKnown(ChoiceTypeFields[8..])
  {
  }

  lemma ChoiceFieldsKnown()
    ensures AllKnown(ChoiceTypeFields)
  {
    ChoiceHeadKnown();
    ChoiceMiddleKnown();
    ChoiceTailKnown();
    AllKnownParts(ChoiceTypeFields, 3, 6, 8);
  }

  /** A list is known when its four consecutive parts are. */
  lemma AllKnownParts(s: seq<Field>, a: nat, b: nat, c: nat)
    requires a <= b <= c <= |s|
    requires AllKnown(s[..a]) && AllKnown(s[a..b]) && AllKnown(s[b..c]) && AllKnown(s[c..])
    ensures AllKnown(s)
  {
    forall f | f in s ensures Known(f) && f.prefix !in {"E:", "M:", "S:", "AI:"} {
      var i :| 0 <= i < |s| && s[i] == f;
      if i < a {
        assert s[..a][i] == f;
      } else if i < b {
        assert s[a..b][i - a] == f;
      } else if i < c {
        assert s[b..c][i - b] == f;
      } else {
        assert s[c..][i - c] == f;
      }
    }
  }

  lemma ChoiceFieldsNamed()
    ensures NoCommonName(ChoiceTypeFields)
  {
  }

  lemma BuiltinsKnown(k: nat)
    requires k < |BuiltinConfigs|
    ensures AllKnown(BuiltinConfigs[k].fields) && NoCommonName(BuiltinConfigs[k].fields)
  {
    FieldListsKnown();
    FieldListsNamed();
    if k == 0 {
      assert BuiltinConfigs[k].fields == QAFields;
    } else if k == 1 {
      assert BuiltinConfigs[k].fields == ReversedFields;
    } else if k == 2 {
      assert BuiltinConfigs[k].fields == ClozeFields;
    } else if k == 3 {
      assert BuiltinConfigs[k].fields == InputFields;
    } else {
      ChoiceFieldsKnown();
      ChoiceFieldsNamed();
      assert BuiltinConfigs[k].fields == ChoiceTypeFields;
    }
  }

  /** The registry after the first `k` built-in types. */
  function BuiltinPrefix(k: nat): (r: Dict<string, NoteTypeConfig>)
    requires k <= |BuiltinConfigs|
    ensures r.Valid() && r.keys == BuiltinNames[..k]
  {
    if k == 0 then Empty()
    else
      var prev := BuiltinPrefix(k - 1);
      BuiltinNamesDistinct(k - 1);
      KeysListed(prev);
      TakeSnoc(BuiltinNames, k);
      Put(prev, BuiltinConfigs[k - 1].name, BuiltinConfigs[k - 1])
  }

  /** The `i`-th built-in type sits under the `i`-th built-in name. */
  lemma {:induction false} BuiltinPrefixItems(k: nat)
    requires k <= |BuiltinConfigs|
    ensures forall i :: 0 <= i < k ==>
      BuiltinNames[i] in BuiltinPrefix(k).items && BuiltinPrefix(k).items[BuiltinNames[i]] == BuiltinConfigs[i]
  {
    if k > 0 {
      BuiltinPrefixItems(k - 1);
      BuiltinNamesDistinct(k - 1);
    }
  }

  lemma TakeSnoc<T>(s: seq<T>, k: nat)
    requires 0 < k <= |s|
    ensures s[..k] == s[..k - 1] + [s[k - 1]]
  {
  }

  /** A fresh registry holds exactly the five built-in types, in order. */
  lemma FreshRegistry()
    ensures BuiltinPrefix(|BuiltinConfigs|).keys == BuiltinNames
    ensures forall i :: 0 <= i < |BuiltinConfigs| ==>
      BuiltinPrefix(|BuiltinConfigs|).items[BuiltinNames[i]] == BuiltinConfigs[i]
  {
    assert BuiltinNames[..|BuiltinConfigs|] == BuiltinNames;
    BuiltinPrefixItems(|BuiltinConfigs|);
  }

  /** Each built-in type is registered under its own name, which no
      earlier built-in type has. */
  lemma BuiltinNamesDistinct(k: nat)
    requires k < |BuiltinConfigs|
    ensures BuiltinConfigs[k].name == BuiltinNames[k]
    ensures BuiltinNames[k] !in BuiltinNames[..k]
    ensures forall i :: 0 <= i < k ==> BuiltinNames[i] != BuiltinNames[k]
  {
    assert |BuiltinNames[0]| == 9 && |BuiltinNames[1]| == 15 && |BuiltinNames[2]| == 12;
    assert |BuiltinNames[3]| == 12 && |BuiltinNames[4]| == 13;
    assert BuiltinNames[2][7] != BuiltinNames[3][7];
  }

  /** Every field known to a registry of built-in types has its one name. */
  lemma BuiltinPrefixKnown(k: nat, f: Field)
    requires k <= |BuiltinConfigs| && Registered(BuiltinPrefix(k), f)
    ensures Known(f)
  {
    if f in CommonFields {
      CommonKnown();
    } else {
      var name :| name in BuiltinPrefix(k).items && f in BuiltinPrefix(k).items[name].fields;
      var i := BuiltinPrefixType(k, name);
      BuiltinFieldKnown(i, f);
    }
  }

  /** Each type in a registry of built-in types is one of them. */
  lemma BuiltinPrefixType(k: nat, name: string) returns (i: nat)
    requires k <= |BuiltinConfigs| && name in BuiltinPrefix(k).items
    ensures i < k && BuiltinPrefix(k).items[name] == BuiltinConfigs[i]
  {
    var configs := BuiltinPrefix(k);
    KeysListed(configs);
    i :| 0 <= i < k && configs.keys[i] == name;
    assert configs.keys[i] == BuiltinNames[i];
    BuiltinPrefixItems(k);
  }

  lemma BuiltinFieldKnown(k: nat, f: Field)
    requires k < |BuiltinConfigs| && f in BuiltinConfigs[k].fields
    ensures Known(f)
  {
    BuiltinsKnown(k);
  }

  lemma BuiltinPrefixCoherent(k: nat)
    requires k <= |BuiltinConfigs|
    ensures RegistryCoherent(BuiltinPrefix(k))
  {
    forall f, g | Registered(BuiltinPrefix(k), f) && Registered(BuiltinPrefix(k), g) && f.prefix == g.prefix
      ensures f.name == g.name
    {
      BuiltinPrefixKnown(k, f);
      BuiltinPrefixKnown(k, g);
    }
  }

  /** The identifying prefixes of each built-in type. */
  lemma BuiltinPrefixSets()
    ensures PrefixesOf(QAFields) == {"Q:", "A:"}
    ensures PrefixesOf(ReversedFields) == {"F:", "B:"}
    ensures PrefixesOf(ClozeFields) == {"T:"}
    ensures PrefixesOf(InputFields) == {"Q:", "I:"}
  {
  }

  lemma ChoicePrefixSet()
    ensures "C1:" in PrefixesOf(ChoiceTypeFields)
    ensures "F:" !in PrefixesOf(ChoiceTypeFields) && "T:" !in PrefixesOf(ChoiceTypeFields)
    ensures "I:" !in PrefixesOf(ChoiceTypeFields)
  {
    assert ChoiceTypeFields[1].prefix == "C1:";
    ChoiceInitials();
    forall p | p in PrefixesOf(ChoiceTypeFields) ensures p != "F:" && p != "T:" && p != "I:" {
      var f :| f in ChoiceTypeFields && f.prefix == p;
      var i :| 0 <= i < |ChoiceTypeFields| && ChoiceTypeFields[i] == f;
    }
  }

  /** Every prefix of the choice type starts with `Q`, `C` or `A`. */
  lemma ChoiceInitials()
    ensures forall i :: 0 <= i < |ChoiceTypeFields| ==>
      |ChoiceTypeFields[i].prefix| > 0 && ChoiceTypeFields[i].prefix[0] in "QCA"
  {
  }

  /** A prefix that only the `k`-th built-in type uses (none for the first). */
  function UniquePrefix(k: nat): string
    requires 0 < k < |BuiltinConfigs|
  {
    if k == 1 then "F:" else if k == 2 then "T:" else if k == 3 then "I:" else "C1:"
  }

  lemma UniquePrefixOnly(k: nat, j: nat)
    requires 0 < k < |BuiltinConfigs| && j < |BuiltinConfigs|
    ensures UniquePrefix(k) in PrefixesOf(BuiltinConfigs[j].fields) <==> j == k
  {
    if j < 4 {
      BuiltinPrefixSets();
      if j == 0 {
        assert BuiltinConfigs[j].fields == QAFields;
      } else if j == 1 {
        assert BuiltinConfigs[j].fields == ReversedFields;
      } else if j == 2 {
        assert BuiltinConfigs[j].fields == ClozeFields;
      } else {
        assert BuiltinConfigs[j].fields == InputFields;
      }
    } else {
      ChoicePrefixSet();
      assert BuiltinConfigs[j].fields == ChoiceTypeFields;
    }
  }

  /** The identifying prefixes of the built-in types differ pairwise: each
      type but the first has a prefix no other type uses. */
  lemma BuiltinsDistinct(a: nat, b: nat)
    requires a < |BuiltinConfigs| && b < |BuiltinConfigs| && a != b
    ensures IdentifyingPrefixes(BuiltinConfigs[a]) != IdentifyingPrefixes(BuiltinConfigs[b])
  {
    if a == 0 {
      UniquePrefixOnly(b, a);
      UniquePrefixOnly(b, b);
    } else {
      UniquePrefixOnly(a, a);
      UniquePrefixOnly(a, b);
    }
  }

  /** The `k`-th built-in type uses no common name or prefix. */
  lemma BuiltinReservation(k: nat, builtinNames: set<string>, builtinPrefixes: set<string>)
    requires k < |BuiltinConfigs|
    ensures ReservationError(BuiltinConfigs[k], |BuiltinConfigs[k].fields|, builtinNames, builtinPrefixes).None?
  {
    BuiltinsKnown(k);
    assert !BuiltinConfigs[k].custom;
    KnownReservation(BuiltinConfigs[k], builtinNames, builtinPrefixes);
  }

  /** A non-custom type whose fields avoid the common names and prefixes
      passes `_validate_reservation`. */
  lemma KnownReservation(config: NoteTypeConfig, builtinNames: set<string>, builtinPrefixes: set<string>)
    requires !config.custom && AllKnown(config.fields) && NoCommonName(config.fields)
    ensures ReservationError(config, |config.fields|, builtinNames, builtinPrefixes).None?
  {
    forall i | 0 <= i < |config.fields|
      ensures FieldReservation(config, config.fields[i], builtinNames, builtinPrefixes).None?
    {
      assert config.fields[i] in config.fields;
    }
  }

  /** The `k`-th built-in type agrees with the table of the types before it. */
  lemma BuiltinCoherence(k: nat)
    requires k < |BuiltinConfigs|
    ensures CoherenceError(BuiltinConfigs[k], |BuiltinConfigs[k].fields|, PrefixTable(BuiltinPrefix(k)).items).None?
  {
    var config := BuiltinConfigs[k];
    var configs := BuiltinPrefix(k);
    var n := |config.fields|;
    var table := PrefixTable(configs).items;
    BuiltinsKnown(k);
    BuiltinPrefixCoherent(k);
    CoherentTable(configs);
    PrefixTableKeys(configs);
    forall i | 0 <= i < n && config.fields[i].prefix in table
      ensures table[config.fields[i].prefix] == config.fields[i].name
    {
      var f :| Registered(configs, f) && f.prefix == config.fields[i].prefix;
      BuiltinPrefixKnown(k, f);
      assert config.fields[i] in config.fields;
    }
    forall i, j | 0 <= i < n && 0 <= j < n && config.fields[i].prefix == config.fields[j].prefix
      ensures config.fields[i].name == config.fields[j].name
    {
      assert config.fields[i] in config.fields && config.fields[j] in config.fields;
    }
    assert AgreesWithTable(config, n, table) && AgreesWithItself(config, n);
    CoherenceErrorIff(config, n, table);
  }

  /** The `k`-th built-in type passes the checks against those before it. */
  lemma BuiltinRegisters(k: nat, builtinNames: set<string>, builtinPrefixes: set<string>)
    requires k < |BuiltinConfigs|
    ensures RegisterError(BuiltinConfigs[k], BuiltinPrefix(k), builtinNames, builtinPrefixes).None?
  {
    BuiltinReservation(k, builtinNames, builtinPrefixes);
    BuiltinCoherence(k);
    BuiltinDistinctness(k);
  }

  /** No earlier built-in type has the `k`-th one's identifying prefixes. */
  lemma BuiltinDistinctness(k: nat)
    requires k < |BuiltinConfigs|
    ensures DistinctnessError(BuiltinConfigs[k], BuiltinPrefix(k).keys, k, BuiltinPrefix(k).items).None?
  {
    var configs := BuiltinPrefix(k);
    BuiltinPrefixItems(k);
    forall i | 0 <= i < k
      ensures !Clashes(BuiltinConfigs[k], configs.keys[i], configs.items[configs.keys[i]])
    {
      assert configs.keys[i] == BuiltinNames[i];
      BuiltinsDistinct(i, k);
    }
  }

  // ---------------------------------------------------------------- the as-written consistency check

  /** A custom type declaring two field names under one fresh prefix. */
  const TwoNamesOnePrefix: NoteTypeConfig :=
    NoteTypeConfig("Custom", [Field("X", "Z:"), Field("Y", "Z:")], false, false, false, true)

  /** On a registry of built-in types (a fresh one when `k` is five),
      `register` as written stores the type above, after which the prefix
      `Z:` stands for two field names; the corrected check refuses it. */
  lemma DuplicatePrefixRegistered(k: nat)
    requires k <= |BuiltinConfigs|
    ensures RegisterErrorAsWritten(TwoNamesOnePrefix, BuiltinPrefix(k), BuiltinFieldNames(k), BuiltinFieldPrefixes(k)) == None
    ensures RegisterError(TwoNamesOnePrefix, BuiltinPrefix(k), BuiltinFieldNames(k), BuiltinFieldPrefixes(k)).Some?
    ensures !RegistryCoherent(Put(BuiltinPrefix(k), TwoNamesOnePrefix.name, TwoNamesOnePrefix))
  {
    FreshReservation(k);
    FreshTableLacksZ(k);
    FreshDistinctness(k);
    DuplicateAccepted(BuiltinPrefix(k), BuiltinFieldNames(k), BuiltinFieldPrefixes(k));
  }

  /** Any registry that reserves neither the names nor the prefix, lacks
      `Z:` in its table and has no type with identifying prefixes `{Z:}`
      takes the type as written and is then incoherent. */
  lemma DuplicateAccepted(configs: Dict<string, NoteTypeConfig>, builtinNames: set<string>, builtinPrefixes: set<string>)
    requires configs.Valid()
    requires ReservationError(TwoNamesOnePrefix, 2, builtinNames, builtinPrefixes).None?
    requires "Z:" !in PrefixTable(configs).items
    requires DistinctnessError(TwoNamesOnePrefix, configs.keys, |configs.keys|, configs.items).None?
    ensures RegisterErrorAsWritten(TwoNamesOnePrefix, configs, builtinNames, builtinPrefixes) == None
    ensures RegisterError(TwoNamesOnePrefix, configs, builtinNames, builtinPrefixes).Some?
    ensures !RegistryCoherent(Put(configs, TwoNamesOnePrefix.name, TwoNamesOnePrefix))
  {
    SamePrefixTwice(PrefixTable(configs).items);
    StoredIncoherent(configs);
  }

  /** Storing the type above leaves `Z:` with two field names. */
  lemma StoredIncoherent(configs: Dict<string, NoteTypeConfig>)
    requires configs.Valid()
    ensures !RegistryCoherent(Put(configs, TwoNamesOnePrefix.name, TwoNamesOnePrefix))
  {
    var next := Put(configs, TwoNamesOnePrefix.name, TwoNamesOnePrefix);
    var x, y := TwoNamesOnePrefix.fields[0], TwoNamesOnePrefix.fields[1];
    assert x in next.items[TwoNamesOnePrefix.name].fields && y in next.items[TwoNamesOnePrefix.name].fields;
    assert Registered(next, x) && Registered(next, y) && x.prefix == y.prefix && x.name != y.name;
  }

  /** Against a table without `Z:`, only the corrected check refuses the
      type above. */
  lemma SamePrefixTwice(table: map<string, string>)
    requires "Z:" !in table
    ensures ConsistencyError(TwoNamesOnePrefix, 2, table) == None
    ensures CoherenceError(TwoNamesOnePrefix, 2, table).Some?
  {
    assert OwnTable(TwoNamesOnePrefix, 1, table) == table["Z:" := "X"];
  }

  lemma FreshReservation(k: nat)
    requires k <= |BuiltinConfigs|
    ensures ReservationError(TwoNamesOnePrefix, 2, BuiltinFieldNames(k), BuiltinFieldPrefixes(k)).None?
  {
    BuiltinFieldSetsKnown(k);
    UnknownFieldsOfTwo();
  }

  lemma UnknownFieldsOfTwo()
    ensures "Z:" !in KnownPrefixes && "X" !in KnownPrefixes.Values && "Y" !in KnownPrefixes.Values
  {
  }

  /** The prefix `Z:` is not in the table of a registry of built-in types. */
  lemma FreshTableLacksZ(k: nat)
    requires k <= |BuiltinConfigs|
    ensures "Z:" !in PrefixTable(BuiltinPrefix(k)).items
  {
    var configs := BuiltinPrefix(k);
    PrefixTableKeys(configs);
    UnknownFieldsOfTwo();
    if "Z:" in PrefixTable(configs).items {
      var f :| Registered(configs, f) && f.prefix == "Z:";
      BuiltinPrefixKnown(k, f);
    }
  }

  /** No built-in type has the identifying prefixes `{Z:}`. */
  lemma FreshDistinctness(k: nat)
    requires k <= |BuiltinConfigs|
    ensures DistinctnessError(TwoNamesOnePrefix, BuiltinPrefix(k).keys, k, BuiltinPrefix(k).items).None?
  {
    var configs := BuiltinPrefix(k);
    BuiltinPrefixItems(k);
    UnknownFieldsOfTwo();
    forall i | 0 <= i < k
      ensures !Clashes(TwoNamesOnePrefix, configs.keys[i], configs.items[configs.keys[i]])
    {
      assert configs.keys[i] == BuiltinNames[i];
      KnownPrefixOf(i);
    }
  }

  /** Each built-in type has an identifying prefix among the known ones. */
  lemma KnownPrefixOf(k: nat)
    requires k < |BuiltinConfigs|
    ensures exists p :: p in IdentifyingPrefixes(BuiltinConfigs[k]) && p in KnownPrefixes
  {
    BuiltinsKnown(k);
    var f := BuiltinConfigs[k].fields[0];
    assert f in BuiltinConfigs[k].fields;
    assert f.prefix in IdentifyingPrefixes(BuiltinConfigs[k]);
  }

  /** The reserved built-in names and prefixes are all known ones. */
  lemma {:induction false} BuiltinFieldSetsKnown(k: nat)
    requires k <= |BuiltinConfigs|
    ensures forall p :: p in BuiltinFieldPrefixes(k) ==> p in KnownPrefixes
    ensures forall x :: x in BuiltinFieldNames(k) ==> x in KnownPrefixes.Values
  {
    if k > 0 {
      BuiltinFieldSetsKnown(k - 1);
      BuiltinsKnown(k - 1);
      var fields := BuiltinConfigs[k - 1].fields;
      forall x | x in NamesOf(fields) ensures x in KnownPrefixes.Values {
        var f :| f in fields && f.name == x;
        assert KnownPrefixes[f.prefix] == x;
      }
    }
  }
}
