/** Running one LLM task over a serialized collection: building the payload
    a provider sees for each note, applying the patch it returns, and
    counting what happened to every note. The provider is a parameter: a
    function from payload to reply. */
module LlmRunner {
  import opened Wrappers
  import opened Json
  import Text
  import Seqs
  import Models
  import opened LlmModels

  /** An exception that leaves `run_task`. */
  datatype Failure = ValueError(msg: string) | TypeError(msg: string) | ProviderFatal(msg: string)

  /** What a provider sees of one note: the editable and read-only fields by
      name. The two never share a name. */
  datatype NotePayload = NotePayload(
    noteKey: string,
    deckName: string,
    noteType: string,
    editableFields: map<string, string>,
    readOnlyFields: map<string, string>)

  /** `_build_note_payload`'s three outcomes. */
  datatype PayloadOutcome = Payload(payload: NotePayload) | NoPayload | Raised(failure: Failure)

  const MissingNoteParts := "Serialized note is missing note_key, note_type, or fields"

  // ---------------------------------------------------------------- payload

  /** A member of a note's fields is offered to the provider at all: not
      the key field, a field of the note type, and a non-empty string. */
  predicate Offered(member: (string, Json), names: set<string>) {
    member.0 != Models.KeyFieldName && member.0 in names && member.1.JStr? && member.1.s != ""
  }

  /** The editable and read-only fields after the given members, in order:
      a later member with the same name overwrites the earlier value. */
  function PayloadFields(rules: seq<FieldExceptionRule>, noteType: string, members: seq<(string, Json)>,
                         names: set<string>): (map<string, string>, map<string, string>)
    decreases |members|
  {
    if |members| == 0 then (map[], map[])
    else
      var (editable, readOnly) := PayloadFields(rules, noteType, members[..|members| - 1], names);
      var (name, raw) := members[|members| - 1];
      if !Offered(members[|members| - 1], names) then (editable, readOnly)
      else match AccessAfter(rules, noteType, name)
        case Hidden => (editable, readOnly)
        case ReadOnly => (editable, readOnly[name := raw.s])
        case Edit => (editable[name := raw.s], readOnly)
  }

  /** A field is editable exactly when some member offers it and the rules
      leave it editable, read-only exactly when some member offers it and
      the rules make it read-only; the two never overlap, hidden fields
      appear in neither, and each value is that of the last member offering
      the field. */
  lemma {:induction false} PayloadFieldsIff(rules: seq<FieldExceptionRule>, noteType: string,
                                            members: seq<(string, Json)>, names: set<string>)
    ensures var (editable, readOnly) := PayloadFields(rules, noteType, members, names);
      (forall k :: k in editable <==>
         AccessAfter(rules, noteType, k) == Edit
         && exists i :: 0 <= i < |members| && members[i].0 == k && Offered(members[i], names))
      && (forall k :: k in readOnly <==>
         AccessAfter(rules, noteType, k) == ReadOnly
         && exists i :: 0 <= i < |members| && members[i].0 == k && Offered(members[i], names))
      && (forall k :: k in editable ==> LastOffered(members, names, k) == Some(editable[k]))
      && (forall k :: k in readOnly ==> LastOffered(members, names, k) == Some(readOnly[k]))
    decreases |members|
  {
    if |members| > 0 {
      var n := |members| - 1;
      var prefix := members[..n];
      PayloadFieldsIff(rules, noteType, prefix, names);
      assert forall i :: 0 <= i < n ==> prefix[i] == members[i];
    }
  }

  /** The value of the last member offering the field. */
  function LastOffered(members: seq<(string, Json)>, names: set<string>, k: string): Option<string>
    decreases |members|
  {
    if |members| == 0 then None
    else if members[|members| - 1].0 == k && Offered(members[|members| - 1], names) then
      Some(members[|members| - 1].1.s)
    else LastOffered(members[..|members| - 1], names, k)
  }

  /** The editable and read-only fields of a payload never share a name,
      and neither holds the key field or a hidden field. */
  lemma PayloadFieldsDisjoint(rules: seq<FieldExceptionRule>, noteType: string,
                              members: seq<(string, Json)>, names: set<string>)
    ensures var (editable, readOnly) := PayloadFields(rules, noteType, members, names);
      editable.Keys !! readOnly.Keys
      && Models.KeyFieldName !in editable && Models.KeyFieldName !in readOnly
      && forall k :: k in editable || k in readOnly ==> k in names && !HiddenByAny(rules, noteType, k)
  {
    PayloadFieldsIff(rules, noteType, members, names);
    var (editable, readOnly) := PayloadFields(rules, noteType, members, names);
    forall k | k in editable || k in readOnly
      ensures k in names && !HiddenByAny(rules, noteType, k) && k != Models.KeyFieldName
    {
      AccessClosedForm(rules, noteType, k);
    }
  }

  /** `_build_note_payload` with the deck name passed along. */
  function PayloadSpec(task: TaskConfig, note: Json, names: set<string>, deckName: string): PayloadOutcome {
    match (Get(note, "note_key"), Get(note, "note_type"), Get(note, "fields"))
    case (Some(JStr(noteKey)), Some(JStr(noteType)), Some(JObj(members))) =>
      var (editable, readOnly) := PayloadFields(task.fieldExceptions, noteType, members, names);
      if |editable| == 0 then NoPayload
      else Payload(NotePayload(noteKey, deckName, noteType, editable, readOnly))
    case _ => Raised(ValueError(MissingNoteParts))
  }

  /** A payload carries the note's key, type and deck, holds at least one
      editable field, and exists exactly when the note's parts are well
      typed and some offered field is left editable. */
  lemma PayloadSpecIff(task: TaskConfig, note: Json, names: set<string>, deckName: string)
    ensures PayloadSpec(task, note, names, deckName).Raised? <==>
      !(Get(note, "note_key").Some? && Get(note, "note_key").value.JStr?
        && Get(note, "note_type").Some? && Get(note, "note_type").value.JStr?
        && Get(note, "fields").Some? && Get(note, "fields").value.JObj?)
    ensures PayloadSpec(task, note, names, deckName).Payload? ==>
      var p := PayloadSpec(task, note, names, deckName).payload;
      Get(note, "note_key") == Some(JStr(p.noteKey)) && Get(note, "note_type") == Some(JStr(p.noteType))
      && p.deckName == deckName && |p.editableFields| > 0 && p.editableFields.Keys !! p.readOnlyFields.Keys
    ensures PayloadSpec(task, note, names, deckName).NoPayload? ==>
      var members := Get(note, "fields").value.members;
      var noteType := Get(note, "note_type").value.s;
      forall i :: 0 <= i < |members| && Offered(members[i], names) ==>
        AccessAfter(task.fieldExceptions, noteType, members[i].0) != Edit
  {
    if PayloadSpec(task, note, names, deckName).Raised? {
    } else {
      var noteType := Get(note, "note_type").value.s;
      var members := Get(note, "fields").value.members;
      PayloadFieldsIff(task.fieldExceptions, noteType, members, names);
      PayloadFieldsDisjoint(task.fieldExceptions, noteType, members, names);
      var (editable, readOnly) := PayloadFields(task.fieldExceptions, noteType, members, names);
      if |editable| == 0 {
        forall i | 0 <= i < |members| && Offered(members[i], names)
          ensures AccessAfter(task.fieldExceptions, noteType, members[i].0) != Edit
        {
          assert members[i].0 !in editable;
        }
      }
    }
  }

  /** `_build_note_payload`: one pass over the note's fields, asking the
      task for each field's access. */
  method BuildNotePayload(task: TaskConfig, note: Json, names: set<string>, deckName: string)
    returns (r: PayloadOutcome)
    ensures r == PayloadSpec(task, note, names, deckName)
  {
    var noteKey := Get(note, "note_key");
    var noteType := Get(note, "note_type");
    var fields := Get(note, "fields");
    if !(noteKey.Some? && noteKey.value.JStr? && noteType.Some? && noteType.value.JStr?
         && fields.Some? && fields.value.JObj?) {
      return Raised(ValueError(MissingNoteParts));
    }
    var members := fields.value.members;
    var editable: map<string, string> := map[];
    var readOnly: map<string, string> := map[];
    var i := 0;
    while i < |members|
      invariant 0 <= i <= |members|
      invariant PayloadFields(task.fieldExceptions, noteType.value.s, members[..i], names) == (editable, readOnly)
    {
      assert members[..i + 1][..i] == members[..i];
      var (fieldName, rawValue) := members[i];
      if fieldName != Models.KeyFieldName && fieldName in names && rawValue.JStr? && rawValue.s != "" {
        var access := FieldAccessOf(task, noteType.value.s, fieldName);
        if access == ReadOnly {
          readOnly := readOnly[fieldName := rawValue.s];
        } else if access == Edit {
          editable := editable[fieldName := rawValue.s];
        }
      }
      i := i + 1;
    }
    assert members[..i] == members;
    if |editable| == 0 {
      return NoPayload;
    }
    r := Payload(NotePayload(noteKey.value.s, deckName, noteType.value.s, editable, readOnly));
  }

  // ---------------------------------------------------------------- the missing deck name

  /** The parameters of the `NotePayload` dataclass, all required. */
  const PayloadParameters := {"note_key", "deck_name", "note_type", "editable_fields", "read_only_fields"}

  /** The keywords `_build_note_payload` passes to `NotePayload`. */
  const PassedKeywords := {"note_key", "note_type", "editable_fields", "read_only_fields"}

  /** Calling the dataclass constructor with the given keywords: a missing
      required parameter raises `TypeError` before any payload exists. */
  function ConstructPayload(keywords: set<string>, p: NotePayload): (r: PayloadOutcome)
    ensures r.Payload? <==> PayloadParameters <= keywords
  {
    if PayloadParameters <= keywords then Payload(p)
    else Raised(TypeError("NotePayload.__init__() missing 1 required positional argument: 'deck_name'"))
  }

  /** `_build_note_payload` as written: every note that would get a payload
      reaches the constructor without `deck_name`. */
  function PayloadAsWritten(task: TaskConfig, note: Json, names: set<string>): PayloadOutcome {
    match PayloadSpec(task, note, names, "")
    case Payload(p) => ConstructPayload(PassedKeywords, p)
    case other => other
  }

  /** As written, no note ever gets a payload: where one is due the call
      raises `TypeError` instead, which `run_task` does not catch. */
  lemma PayloadAsWrittenRaises(task: TaskConfig, note: Json, names: set<string>)
    ensures !PayloadAsWritten(task, note, names).Payload?
    ensures PayloadSpec(task, note, names, "").Payload? ==>
      PayloadAsWritten(task, note, names).Raised? && PayloadAsWritten(task, note, names).failure.TypeError?
  {
    assert "deck_name" in PayloadParameters && "deck_name" !in PassedKeywords;
  }

  // ---------------------------------------------------------------- patch

  /** `_apply_note_patch`'s outcomes: the note with its new fields, no
      change, a per-note error, or an exception that leaves the run. */
  datatype PatchOutcome = Applied(note: Json) | Unchanged | NoteError(msg: string) | PatchRaised(failure: Failure)

  const KeyMismatch := "Patch note_key did not match serialized note"
  const FieldsNotMapping := "Serialized note fields must be a mapping"

  /** The error for an edit to a field the payload does not offer as
      editable. */
  function ForbiddenMessage(payload: NotePayload, name: string): string {
    if name in payload.readOnlyFields then "Model attempted to update read-only field '" + name + "'"
    else "Model attempted to update hidden or unknown field '" + name + "'"
  }

  /** The note's fields after the given edits, in order, and whether any
      edit wrote a different value; the first edit of a field that is not
      editable stops the patch. */
  function EditsAfter(payload: NotePayload, fields: seq<(string, Json)>, edits: seq<(string, string)>)
    : Result<(seq<(string, Json)>, bool)>
    decreases |edits|
  {
    if |edits| == 0 then Ok((fields, false))
    else
      var prev := EditsAfter(payload, fields, edits[..|edits| - 1]);
      var (name, value) := edits[|edits| - 1];
      if prev.Err? then prev
      else if name !in payload.editableFields then Err(ForbiddenMessage(payload, name))
      else if Lookup(prev.value.0, name) != Some(JStr(value)) then Ok((Set(prev.value.0, name, JStr(value)), true))
      else prev
  }

  /** The edits are rejected exactly when some edit names a field that is
      not editable. */
  lemma {:induction false} EditsRejectedIff(payload: NotePayload, fields: seq<(string, Json)>,
                                            edits: seq<(string, string)>)
    ensures EditsAfter(payload, fields, edits).Err? <==>
      exists k :: 0 <= k < |edits| && edits[k].0 !in payload.editableFields
    decreases |edits|
  {
    if |edits| > 0 {
      var n := |edits| - 1;
      var prefix := edits[..n];
      EditsRejectedIff(payload, fields, prefix);
      assert forall j :: 0 <= j < n ==> prefix[j] == edits[j];
      if EditsAfter(payload, fields, prefix).Err? {
        var k :| 0 <= k < n && prefix[k].0 !in payload.editableFields;
        assert edits[k].0 !in payload.editableFields;
      }
    }
  }

  /** The first edit of a field that is not editable gives the message. */
  lemma {:induction false} EditsRejectedAt(payload: NotePayload, fields: seq<(string, Json)>,
                                           edits: seq<(string, string)>, k: nat)
    requires k < |edits| && edits[k].0 !in payload.editableFields
    requires forall j :: 0 <= j < k ==> edits[j].0 in payload.editableFields
    ensures EditsAfter(payload, fields, edits) == Err(ForbiddenMessage(payload, edits[k].0))
    decreases |edits|
  {
    var n := |edits| - 1;
    var prefix := edits[..n];
    if k < n {
      assert prefix[k] == edits[k];
      assert forall j :: 0 <= j < k ==> prefix[j] == edits[j];
      EditsRejectedAt(payload, fields, prefix, k);
    } else {
      assert forall j :: 0 <= j < n ==> prefix[j] == edits[j];
      EditsRejectedIff(payload, fields, prefix);
    }
  }

  /** No two edits name the same field, as in the dict a provider returns. */
  predicate DistinctEdits(edits: seq<(string, string)>) {
    forall i, j :: 0 <= i < j < |edits| ==> edits[i].0 != edits[j].0
  }

  /** Some edit is an edit of the field named. */
  predicate Edited(edits: seq<(string, string)>, name: string) {
    exists k :: 0 <= k < |edits| && edits[k].0 == name
  }

  /** An accepted edit leaves its field holding the new value. */
  lemma {:induction false} EditWritten(payload: NotePayload, fields: seq<(string, Json)>,
                                       edits: seq<(string, string)>, k: nat)
    requires DistinctEdits(edits)
    requires EditsAfter(payload, fields, edits).Ok?
    requires k < |edits|
    ensures Lookup(EditsAfter(payload, fields, edits).value.0, edits[k].0) == Some(JStr(edits[k].1))
    decreases |edits|
  {
    var n := |edits| - 1;
    var prefix := edits[..n];
    var (name, value) := edits[n];
    assert EditsAfter(payload, fields, prefix).Ok?;
    var prev := EditsAfter(payload, fields, prefix).value.0;
    var next := EditsAfter(payload, fields, edits).value.0;
    if k < n {
      assert prefix[k] == edits[k];
      assert forall i, j :: 0 <= i < j < n ==> prefix[i] == edits[i] && prefix[j] == edits[j];
      EditWritten(payload, fields, prefix, k);
      assert edits[k].0 != name;
    }
    if Lookup(prev, name) != Some(JStr(value)) {
      assert next == Set(prev, name, JStr(value));
    } else {
      assert next == prev;
    }
  }

  /** Accepted edits leave every field no edit names as it was. */
  lemma {:induction false} UneditedKept(payload: NotePayload, fields: seq<(string, Json)>,
                                        edits: seq<(string, string)>, other: string)
    requires EditsAfter(payload, fields, edits).Ok?
    requires !Edited(edits, other)
    ensures Lookup(EditsAfter(payload, fields, edits).value.0, other) == Lookup(fields, other)
    decreases |edits|
  {
    if |edits| > 0 {
      var n := |edits| - 1;
      var prefix := edits[..n];
      forall k | 0 <= k < n
        ensures prefix[k].0 != other
      {
        assert prefix[k] == edits[k];
      }
      UneditedKept(payload, fields, prefix, other);
      assert edits[n].0 != other;
    }
  }

  /** Accepted edits: every edited field holds its new value and every
      other field is untouched. */
  lemma EditsWritten(payload: NotePayload, fields: seq<(string, Json)>, edits: seq<(string, string)>)
    requires DistinctEdits(edits)
    requires EditsAfter(payload, fields, edits).Ok?
    ensures var next := EditsAfter(payload, fields, edits).value.0;
      (forall k :: 0 <= k < |edits| ==> Lookup(next, edits[k].0) == Some(JStr(edits[k].1)))
      && (forall other :: !Edited(edits, other) ==> Lookup(next, other) == Lookup(fields, other))
  {
    forall k | 0 <= k < |edits| {
      EditWritten(payload, fields, edits, k);
    }
    forall other | !Edited(edits, other) {
      UneditedKept(payload, fields, edits, other);
    }
  }

  /** Accepted edits count as a change exactly when some edit differs from
      the field's current value; with no change the fields are exactly as
      they were. */
  lemma {:induction false} EditsChanged(payload: NotePayload, fields: seq<(string, Json)>,
                                        edits: seq<(string, string)>)
    requires DistinctEdits(edits)
    requires EditsAfter(payload, fields, edits).Ok?
    ensures var (next, changed) := EditsAfter(payload, fields, edits).value;
      (changed <==> exists k :: 0 <= k < |edits| && Lookup(fields, edits[k].0) != Some(JStr(edits[k].1)))
      && (!changed ==> next == fields)
    decreases |edits|
  {
    if |edits| > 0 {
      var n := |edits| - 1;
      var prefix := edits[..n];
      assert forall j :: 0 <= j < n ==> prefix[j] == edits[j];
      EditsChanged(payload, fields, prefix);
      EditsWritten(payload, fields, prefix);
      assert !Edited(prefix, edits[n].0);
    }
  }

  /** The fields a validated note sees; a value that is not a string reads
      as empty. */
  function StringFields(members: seq<(string, Json)>): (r: seq<(string, string)>)
    ensures |r| == |members|
    ensures forall i :: 0 <= i < |members| ==>
      r[i] == (members[i].0, if members[i].1.JStr? then members[i].1.s else "")
  {
    seq(|members|, i requires 0 <= i < |members| =>
      (members[i].0, if members[i].1.JStr? then members[i].1.s else ""))
  }

  /** `_apply_note_patch`. */
  function PatchSpec(note: Json, payload: NotePayload, edits: seq<(string, string)>,
                     config: Models.NoteTypeConfig): PatchOutcome
  {
    if Get(note, "note_key") != Some(JStr(payload.noteKey)) then NoteError(KeyMismatch)
    else match Get(note, "fields")
      case Some(JObj(raw)) => PatchEdited(note, payload, EditsAfter(payload, raw, edits), config)
      case _ => NoteError(FieldsNotMapping)
  }

  /** The outcome once the edits are written into the copy of the fields. */
  function PatchEdited(note: Json, payload: NotePayload, edited: Result<(seq<(string, Json)>, bool)>,
                       config: Models.NoteTypeConfig): PatchOutcome
  {
    match edited
    case Err(msg) => NoteError(msg)
    case Ok((next, changed)) =>
      if !changed then Unchanged
      else ValidatedPatch(note, payload, next, config)
  }

  /** The patched note, if it validates. */
  function ValidatedPatch(note: Json, payload: NotePayload, next: seq<(string, Json)>,
                          config: Models.NoteTypeConfig): PatchOutcome
  {
    match Models.ValidateSpec(Models.Note(Some(payload.noteKey), payload.noteType, StringFields(next)), config)
    case Err(e) => PatchRaised(ValueError(e))
    case Ok(errors) =>
      if |errors| > 0 then NoteError(Text.Join(errors, "; "))
      else if note.JObj? then Applied(JObj(Set(note.members, "fields", JObj(next))))
      else NoteError(FieldsNotMapping)
  }

  /** A patch is applied only to the note it was built for, only when every
      edit targets an editable field and some edit changes a value, and only
      when the patched note validates; the applied note differs from the
      original in its fields alone, which hold every edit and nothing else
      new. */
  lemma PatchApplied(note: Json, payload: NotePayload, edits: seq<(string, string)>,
                     config: Models.NoteTypeConfig)
    requires DistinctEdits(edits)
    requires PatchSpec(note, payload, edits, config).Applied?
    ensures Get(note, "note_key") == Some(JStr(payload.noteKey))
    ensures forall k :: 0 <= k < |edits| ==> edits[k].0 in payload.editableFields
    ensures exists k :: 0 <= k < |edits| && Lookup(Get(note, "fields").value.members, edits[k].0) != Some(JStr(edits[k].1))
    ensures var applied := PatchSpec(note, payload, edits, config).note;
      applied.JObj? && note.JObj?
      && (forall other :: other != "fields" ==> Lookup(applied.members, other) == Lookup(note.members, other))
      && Lookup(applied.members, "fields").Some? && Lookup(applied.members, "fields").value.JObj?
      && var next := Lookup(applied.members, "fields").value.members;
         (forall k :: 0 <= k < |edits| ==> Lookup(next, edits[k].0) == Some(JStr(edits[k].1)))
         && (forall other :: !Edited(edits, other) ==> Lookup(next, other) == Lookup(Get(note, "fields").value.members, other))
         && Models.ValidateSpec(Models.Note(Some(payload.noteKey), payload.noteType, StringFields(next)), config) == Ok([])
  {
    var raw := Get(note, "fields").value.members;
    EditsRejectedIff(payload, raw, edits);
    EditsWritten(payload, raw, edits);
    EditsChanged(payload, raw, edits);
  }

  /** With the right note and only editable fields, a patch whose every
      value is already in place changes nothing. */
  lemma PatchUnchangedIff(note: Json, payload: NotePayload, edits: seq<(string, string)>,
                          config: Models.NoteTypeConfig)
    requires DistinctEdits(edits)
    requires Get(note, "note_key") == Some(JStr(payload.noteKey))
    requires Get(note, "fields").Some? && Get(note, "fields").value.JObj?
    requires forall k :: 0 <= k < |edits| ==> edits[k].0 in payload.editableFields
    ensures PatchSpec(note, payload, edits, config).Unchanged? <==>
      forall k :: 0 <= k < |edits| ==> Lookup(Get(note, "fields").value.members, edits[k].0) == Some(JStr(edits[k].1))
  {
    var raw := Get(note, "fields").value.members;
    EditsRejectedIff(payload, raw, edits);
    EditsWritten(payload, raw, edits);
    EditsChanged(payload, raw, edits);
  }

  /** A patch touching a field the payload does not offer as editable is a
      per-note error naming the first such field, and changes nothing. */
  lemma PatchRejected(note: Json, payload: NotePayload, edits: seq<(string, string)>,
                      config: Models.NoteTypeConfig, k: nat)
    requires Get(note, "note_key") == Some(JStr(payload.noteKey))
    requires Get(note, "fields").Some? && Get(note, "fields").value.JObj?
    requires k < |edits| && edits[k].0 !in payload.editableFields
    requires forall j :: 0 <= j < k ==> edits[j].0 in payload.editableFields
    ensures PatchSpec(note, payload, edits, config) == NoteError(ForbiddenMessage(payload, edits[k].0))
  {
    EditsRejectedAt(payload, Get(note, "fields").value.members, edits, k);
    PatchEditsRefused(note, payload, edits, config);
  }

  /** Edits that are refused make the refusal the note's error. */
  lemma PatchEditsRefused(note: Json, payload: NotePayload, edits: seq<(string, string)>,
                          config: Models.NoteTypeConfig)
    requires Get(note, "note_key") == Some(JStr(payload.noteKey))
    requires Get(note, "fields").Some? && Get(note, "fields").value.JObj?
    requires EditsAfter(payload, Get(note, "fields").value.members, edits).Err?
    ensures PatchSpec(note, payload, edits, config)
            == NoteError(EditsAfter(payload, Get(note, "fields").value.members, edits).error)
  {
  }

  /** `_apply_note_patch`: the edits are written into a copy of the
      fields, which replaces the note's fields only once the patched note
      validates. */
  method ApplyNotePatch(note: Json, payload: NotePayload, edits: seq<(string, string)>,
                        config: Models.NoteTypeConfig) returns (r: PatchOutcome)
    ensures r == PatchSpec(note, payload, edits, config)
  {
    if Get(note, "note_key") != Some(JStr(payload.noteKey)) {
      return NoteError(KeyMismatch);
    }
    var rawFields := Get(note, "fields");
    if !(rawFields.Some? && rawFields.value.JObj?) {
      return NoteError(FieldsNotMapping);
    }
    var edited := WriteEdits(payload, rawFields.value.members, edits);
    if edited.Err? {
      return NoteError(edited.error);
    }
    var (nextFields, changed) := edited.value;
    if !changed {
      return Unchanged;
    }
    var validated := Models.Validate(Models.Note(Some(payload.noteKey), payload.noteType, StringFields(nextFields)), config);
    if validated.Err? {
      return PatchRaised(ValueError(validated.error));
    }
    if |validated.value| > 0 {
      return NoteError(Text.Join(validated.value, "; "));
    }
    r := Applied(JObj(Set(note.members, "fields", JObj(nextFields))));
  }

  /** The loop of `_apply_note_patch` over the edits: each edit of an
      editable field that differs from the current value is written into
      the copy; an edit of any other field stops the patch. */
  method WriteEdits(payload: NotePayload, raw: seq<(string, Json)>, edits: seq<(string, string)>)
    returns (r: Result<(seq<(string, Json)>, bool)>)
    ensures r == EditsAfter(payload, raw, edits)
  {
    var nextFields := raw;
    var changed := false;
    var i := 0;
    while i < |edits|
      invariant 0 <= i <= |edits|
      invariant EditsAfter(payload, raw, edits[..i]) == Ok((nextFields, changed))
    {
      assert edits[..i + 1][..i] == edits[..i];
      var (fieldName, value) := edits[i];
      if fieldName !in payload.editableFields {
        assert EditsAfter(payload, raw, edits[..i + 1]) == Err(ForbiddenMessage(payload, fieldName));
        EditsErrSticks(payload, raw, edits, i + 1);
        return Err(ForbiddenMessage(payload, fieldName));
      }
      if Lookup(nextFields, fieldName) != Some(JStr(value)) {
        nextFields := Set(nextFields, fieldName, JStr(value));
        changed := true;
      }
      i := i + 1;
    }
    assert edits[..i] == edits;
    r := Ok((nextFields, changed));
  }

  /** Once a prefix of the edits is rejected, so are all the edits. */
  lemma {:induction false} EditsErrSticks(payload: NotePayload, fields: seq<(string, Json)>,
                                          edits: seq<(string, string)>, k: nat)
    requires k <= |edits| && EditsAfter(payload, fields, edits[..k]).Err?
    ensures EditsAfter(payload, fields, edits) == EditsAfter(payload, fields, edits[..k])
    decreases |edits| - k
  {
    if k == |edits| {
      assert edits[..k] == edits;
    } else {
      assert edits[..k + 1][..k] == edits[..k];
      EditsErrSticks(payload, fields, edits, k + 1);
    }
  }

  // ---------------------------------------------------------------- one note

  /** A provider's reply to one payload: a patch, an error confined to the
      note, or an error that ends the run. */
  datatype Reply = Patch(noteKey: string, edits: seq<(string, string)>) | NoteFailure(msg: string) | Fatal(msg: string)

  /** What happened to one entry of a deck's notes list. */
  datatype NoteResult =
    | Ignored                   // not a mapping
    | Aborted(failure: Failure) // an exception that ends the run
    | Skipped                   // no editable field to offer
    | Errored                   // a per-note error, counted and logged
    | Updated(note: Json)       // the patched note
    | Kept                      // the patch changed nothing

  /** The fields of a note type a provider may see: all but the key field. */
  function FieldNamesOf(config: Models.NoteTypeConfig): set<string> {
    set i | 0 <= i < |config.fields| && config.fields[i].name != Models.KeyFieldName :: config.fields[i].name
  }

  /** How an unknown note type shows in its error message. */
  function NoteTypeText(t: Option<Json>): string {
    match t
    case None => "None"
    case Some(JStr(s)) => s
    case Some(_) => "<non-string>"
  }

  /** One note of an in-scope deck, as the inner loop of `run_task` treats
      it. */
  function NoteOutcome(task: TaskConfig, deckName: string, note: Json, configs: map<string, Models.NoteTypeConfig>,
                       reply: NotePayload -> Reply): NoteResult
  {
    if !note.JObj? then Ignored
    else
      var t := Get(note, "note_type");
      if !(t.Some? && t.value.JStr? && t.value.s in configs) then
        Aborted(ValueError("Unknown note type '" + NoteTypeText(t) + "' in serialized note"))
      else
        var config := configs[t.value.s];
        NoteStep(PayloadSpec(task, note, FieldNamesOf(config), deckName), note, config, reply)
  }

  /** The note's fate once its payload outcome is known. */
  function NoteStep(built: PayloadOutcome, note: Json, config: Models.NoteTypeConfig,
                    reply: NotePayload -> Reply): NoteResult
  {
    match built
    case Raised(f) => Aborted(f)
    case NoPayload => Skipped
    case Payload(p) => ReplyOutcome(note, p, config, reply(p))
  }

  /** The note's fate given the provider's reply: per-note errors are
      counted, a fatal provider error and a failure of validation itself
      end the run. */
  function ReplyOutcome(note: Json, p: NotePayload, config: Models.NoteTypeConfig, answer: Reply): NoteResult {
    match answer
    case Fatal(msg) => Aborted(ProviderFatal(msg))
    case NoteFailure(_) => Errored
    case Patch(key, edits) =>
      if key != p.noteKey then Errored
      else match PatchSpec(note, p, edits, config)
        case NoteError(_) => Errored
        case PatchRaised(f) => Aborted(f)
        case Unchanged => Kept
        case Applied(n) => Updated(n)
  }

  /** As written, every note of a known type that would get a payload ends
      the run with `TypeError` before the provider is asked. */
  lemma NoteAsWrittenAborts(task: TaskConfig, note: Json, config: Models.NoteTypeConfig, reply: NotePayload -> Reply)
    requires PayloadSpec(task, note, FieldNamesOf(config), "").Payload?
    ensures NoteStep(PayloadAsWritten(task, note, FieldNamesOf(config)), note, config, reply).Aborted?
    ensures NoteStep(PayloadAsWritten(task, note, FieldNamesOf(config)), note, config, reply).failure.TypeError?
  {
    PayloadAsWrittenRaises(task, note, FieldNamesOf(config));
  }

  /** The inner loop's body for one note. */
  method ProcessNote(task: TaskConfig, deckName: string, note: Json, configs: map<string, Models.NoteTypeConfig>,
                     reply: NotePayload -> Reply) returns (r: NoteResult)
    ensures r == NoteOutcome(task, deckName, note, configs, reply)
  {
    if !note.JObj? {
      return Ignored;
    }
    var noteTypeName := Get(note, "note_type");
    if !(noteTypeName.Some? && noteTypeName.value.JStr? && noteTypeName.value.s in configs) {
      return Aborted(ValueError("Unknown note type '" + NoteTypeText(noteTypeName) + "' in serialized note"));
    }
    var config := configs[noteTypeName.value.s];
    var built := BuildNotePayload(task, note, FieldNamesOf(config), deckName);
    if built.Raised? {
      return Aborted(built.failure);
    }
    if built.NoPayload? {
      return Skipped;
    }
    var payload := built.payload;
    var answer := reply(payload);
    if answer.Fatal? {
      return Aborted(ProviderFatal(answer.msg));
    }
    if answer.NoteFailure? || answer.noteKey != payload.noteKey {
      return Errored;
    }
    var patched := ApplyNotePatch(note, payload, answer.edits, config);
    match patched
    case NoteError(_) => r := Errored;
    case PatchRaised(f) => r := Aborted(f);
    case Unchanged => r := Kept;
    case Applied(n) => r := Updated(n);
  }

  // ---------------------------------------------------------------- counting

  /** The counters of a run summary, as a value. */
  datatype Tally = Tally(eligible: nat, updated: nat, unchangedNotes: nat, skipped: nat, errors: nat)

  function TallyOf(summary: TaskRunSummary): Tally
    reads summary
  {
    Tally(summary.eligible, summary.updated, summary.unchangedNotes, summary.skipped, summary.errors)
  }

  /** Every note given to the provider ends updated, unchanged or in error. */
  predicate Balanced(t: Tally) {
    t.eligible == t.updated + t.unchangedNotes + t.errors
  }

  /** The counters after one note. */
  function Count(t: Tally, r: NoteResult): Tally {
    match r
    case Skipped => t.(skipped := t.skipped + 1)
    case Errored => t.(eligible := t.eligible + 1, errors := t.errors + 1)
    case Updated(_) => t.(eligible := t.eligible + 1, updated := t.updated + 1)
    case Kept => t.(eligible := t.eligible + 1, unchangedNotes := t.unchangedNotes + 1)
    case _ => t
  }

  /** A run either completes with its counters or ends with an exception. */
  datatype Run<T> = Done(value: T) | Failed(failure: Failure)

  /** The counters after the given notes, in order; the first note that
      aborts ends the run. */
  function TallyNotes(t: Tally, results: seq<NoteResult>): Run<Tally>
    decreases |results|
  {
    if |results| == 0 then Done(t)
    else
      var prev := TallyNotes(t, results[..|results| - 1]);
      var last := results[|results| - 1];
      if prev.Failed? then prev
      else if last.Aborted? then Failed(last.failure)
      else Done(Count(prev.value, last))
  }

  /** What happened to one entry of the decks list. */
  datatype DeckResult =
    | DeckIgnored                              // not a mapping, or no name or notes list
    | OutOfScope(count: nat)                   // the task's scope excludes the deck
    | InScope(results: seq<NoteResult>)        // each note's result

  /** The counters after the given decks, in order. */
  function TallyDecks(t: Tally, decks: seq<DeckResult>): Run<Tally>
    decreases |decks|
  {
    if |decks| == 0 then Done(t)
    else
      var prev := TallyDecks(t, decks[..|decks| - 1]);
      if prev.Failed? then prev else DeckStep(prev.value, decks[|decks| - 1])
  }

  /** The counters after one deck. */
  function DeckStep(t: Tally, deck: DeckResult): Run<Tally> {
    match deck
    case DeckIgnored => Done(t)
    case OutOfScope(c) => Done(t.(skipped := t.skipped + c))
    case InScope(results) => TallyNotes(t, results)
  }

  /** Notes given to the provider, notes without a payload, per-note
      outcomes, and the notes of out-of-scope decks. */
  function CountWhere(results: seq<NoteResult>, p: NoteResult -> bool): nat
    decreases |results|
  {
    if |results| == 0 then 0
    else CountWhere(results[..|results| - 1], p) + (if p(results[|results| - 1]) then 1 else 0)
  }

  predicate IsEligible(r: NoteResult) { r.Errored? || r.Updated? || r.Kept? }
  predicate IsUpdated(r: NoteResult) { r.Updated? }
  predicate IsKept(r: NoteResult) { r.Kept? }
  predicate IsErrored(r: NoteResult) { r.Errored? }
  predicate IsSkipped(r: NoteResult) { r.Skipped? }

  function NotesWhere(decks: seq<DeckResult>, p: NoteResult -> bool): nat
    decreases |decks|
  {
    if |decks| == 0 then 0
    else NotesWhere(decks[..|decks| - 1], p)
         + (match decks[|decks| - 1] case InScope(results) => CountWhere(results, p) case _ => 0)
  }

  function OutOfScopeNotes(decks: seq<DeckResult>): nat
    decreases |decks|
  {
    if |decks| == 0 then 0
    else OutOfScopeNotes(decks[..|decks| - 1])
         + (match decks[|decks| - 1] case OutOfScope(c) => c case _ => 0)
  }

  /** Some note of the decks aborts. */
  predicate AnyAborted(decks: seq<DeckResult>) {
    exists i, k :: 0 <= i < |decks| && decks[i].InScope? && 0 <= k < |decks[i].results|
      && decks[i].results[k].Aborted?
  }

  /** Over one deck's notes: the run completes exactly when no note aborts,
      and then each counter grows by the number of notes of its kind. */
  lemma {:induction false} TallyNotesCounts(t: Tally, results: seq<NoteResult>)
    ensures TallyNotes(t, results).Done? <==> forall k :: 0 <= k < |results| ==> !results[k].Aborted?
    ensures TallyNotes(t, results).Done? ==>
      var u := TallyNotes(t, results).value;
      u.eligible == t.eligible + CountWhere(results, IsEligible)
      && u.updated == t.updated + CountWhere(results, IsUpdated)
      && u.unchangedNotes == t.unchangedNotes + CountWhere(results, IsKept)
      && u.errors == t.errors + CountWhere(results, IsErrored)
      && u.skipped == t.skipped + CountWhere(results, IsSkipped)
    decreases |results|
  {
    if |results| > 0 {
      var n := |results| - 1;
      var prefix := results[..n];
      TallyNotesCounts(t, prefix);
      assert forall k :: 0 <= k < n ==> prefix[k] == results[k];
      if TallyNotes(t, prefix).Failed? {
        var k :| 0 <= k < n && prefix[k].Aborted?;
        assert results[k].Aborted?;
      }
    }
  }

  /** Over all decks: the run completes exactly when no note of an
      in-scope deck aborts; then the notes given to the provider split into
      updated, unchanged and errored, and the skipped notes are those of
      out-of-scope decks plus those without a payload. */
  lemma {:induction false} TallyDecksCounts(t: Tally, decks: seq<DeckResult>)
    ensures TallyDecks(t, decks).Done? <==> !AnyAborted(decks)
    ensures TallyDecks(t, decks).Done? ==>
      var u := TallyDecks(t, decks).value;
      u.eligible == t.eligible + NotesWhere(decks, IsEligible)
      && u.updated == t.updated + NotesWhere(decks, IsUpdated)
      && u.unchangedNotes == t.unchangedNotes + NotesWhere(decks, IsKept)
      && u.errors == t.errors + NotesWhere(decks, IsErrored)
      && u.skipped == t.skipped + OutOfScopeNotes(decks) + NotesWhere(decks, IsSkipped)
    decreases |decks|
  {
    if |decks| > 0 {
      var n := |decks| - 1;
      var prefix := decks[..n];
      TallyDecksCounts(t, prefix);
      assert forall i :: 0 <= i < n ==> prefix[i] == decks[i];
      var prev := TallyDecks(t, prefix);
      if prev.Failed? {
        var i, k :| 0 <= i < n && prefix[i].InScope? && 0 <= k < |prefix[i].results| && prefix[i].results[k].Aborted?;
        assert decks[i].InScope? && decks[i].results[k].Aborted?;
      } else if decks[n].InScope? {
        TallyNotesCounts(prev.value, decks[n].results);
      }
    }
  }

  /** A run whose counters start balanced ends balanced. */
  lemma CountsBalanced(t: Tally, decks: seq<DeckResult>)
    requires Balanced(t) && TallyDecks(t, decks).Done?
    ensures Balanced(TallyDecks(t, decks).value)
  {
    TallyDecksCounts(t, decks);
    EligibleSplits(decks);
  }

  /** Each note given to the provider is exactly one of updated, unchanged
      and errored. */
  lemma {:induction false} EligibleSplits(decks: seq<DeckResult>)
    ensures NotesWhere(decks, IsEligible)
         == NotesWhere(decks, IsUpdated) + NotesWhere(decks, IsKept) + NotesWhere(decks, IsErrored)
    decreases |decks|
  {
    if |decks| > 0 {
      EligibleSplits(decks[..|decks| - 1]);
      if decks[|decks| - 1].InScope? {
        EligibleSplitsNotes(decks[|decks| - 1].results);
      }
    }
  }

  lemma {:induction false} EligibleSplitsNotes(results: seq<NoteResult>)
    ensures CountWhere(results, IsEligible)
         == CountWhere(results, IsUpdated) + CountWhere(results, IsKept) + CountWhere(results, IsErrored)
    decreases |results|
  {
    if |results| > 0 {
      EligibleSplitsNotes(results[..|results| - 1]);
    }
  }

  // ---------------------------------------------------------------- decks

  /** How each note of a named deck turns out. The deck-level functions
      below take it as a parameter; a run uses `RuleOf`. */
  type NoteRule = (string, Json) -> NoteResult

  /** The rule of `run_task` for a task: `NoteOutcome`. */
  function RuleOf(task: TaskConfig, configs: map<string, Models.NoteTypeConfig>, reply: NotePayload -> Reply): NoteRule {
    (deckName: string, note: Json) => NoteOutcome(task, deckName, note, configs, reply)
  }

  /** `rule` gives each note the result `NoteOutcome` gives it. */
  ghost predicate Follows(rule: NoteRule, task: TaskConfig, configs: map<string, Models.NoteTypeConfig>,
                    reply: NotePayload -> Reply)
  {
    forall d, n {:trigger NoteOutcome(task, d, n, configs, reply)} :: rule(d, n) == NoteOutcome(task, d, n, configs, reply)
  }

  /** One entry of the serialized decks list. */
  function DeckOutcome(task: TaskConfig, deck: Json, rule: NoteRule): DeckResult
  {
    if !deck.JObj? then DeckIgnored
    else match (Get(deck, "name"), Get(deck, "notes"))
      case (Some(JStr(name)), Some(JArr(notes))) =>
        if !task.decks.Matches(name) then OutOfScope(|notes|)
        else InScope(NoteResults(rule, name, notes))
      case _ => DeckIgnored
  }

  /** Each note's result, in order. */
  function NoteResults(rule: NoteRule, deckName: string, notes: seq<Json>): (r: seq<NoteResult>)
    ensures |r| == |notes|
    decreases |notes|
  {
    if |notes| == 0 then []
    else NoteResults(rule, deckName, notes[..|notes| - 1]) + [rule(deckName, notes[|notes| - 1])]
  }

  lemma {:induction false} NoteResultsAt(rule: NoteRule, deckName: string, notes: seq<Json>, k: nat)
    requires k < |notes|
    ensures NoteResults(rule, deckName, notes)[k] == rule(deckName, notes[k])
    decreases |notes|
  {
    var n := |notes| - 1;
    if k < n {
      NoteResultsAt(rule, deckName, notes[..n], k);
    }
  }

  /** Each deck's result, in order. */
  function DeckResults(task: TaskConfig, decks: seq<Json>, rule: NoteRule): (r: seq<DeckResult>)
    ensures |r| == |decks|
    decreases |decks|
  {
    if |decks| == 0 then []
    else DeckResults(task, decks[..|decks| - 1], rule) + [DeckOutcome(task, decks[|decks| - 1], rule)]
  }

  lemma {:induction false} DeckResultsAt(task: TaskConfig, decks: seq<Json>, rule: NoteRule, k: nat)
    requires k < |decks|
    ensures DeckResults(task, decks, rule)[k] == DeckOutcome(task, decks[k], rule)
    decreases |decks|
  {
    var n := |decks| - 1;
    if k < n {
      DeckResultsAt(task, decks[..n], rule, k);
    }
  }

  /** A note after the run: the patched note where a patch was applied. */
  function NewNote(note: Json, r: NoteResult): Json {
    if r.Updated? then r.note else note
  }

  /** The notes after the run, in order. */
  function NewNotes(notes: seq<Json>, results: seq<NoteResult>): (r: seq<Json>)
    requires |results| == |notes|
    ensures |r| == |notes|
    decreases |notes|
  {
    if |notes| == 0 then []
    else NewNotes(notes[..|notes| - 1], results[..|notes| - 1]) + [NewNote(notes[|notes| - 1], results[|notes| - 1])]
  }

  /** A deck after the run: an in-scope deck's notes list holds the notes
      after the run; every other deck is as it was. */
  function NewDeck(deck: Json, r: DeckResult): Json {
    if r.InScope? && deck.JObj? && Get(deck, "notes").Some? && Get(deck, "notes").value.JArr?
       && |Get(deck, "notes").value.items| == |r.results| then
      JObj(Set(deck.members, "notes", JArr(NewNotes(Get(deck, "notes").value.items, r.results))))
    else deck
  }

  /** The decks after the run, in order. */
  function NewDecks(decks: seq<Json>, results: seq<DeckResult>): (r: seq<Json>)
    requires |results| == |decks|
    ensures |r| == |decks|
    decreases |decks|
  {
    if |decks| == 0 then []
    else NewDecks(decks[..|decks| - 1], results[..|decks| - 1]) + [NewDeck(decks[|decks| - 1], results[|decks| - 1])]
  }

  /** Once a prefix of the notes aborts, so does the deck. */
  lemma {:induction false} TallyNotesFailSticks(t: Tally, results: seq<NoteResult>, k: nat)
    requires k <= |results| && TallyNotes(t, results[..k]).Failed?
    ensures TallyNotes(t, results) == TallyNotes(t, results[..k])
    decreases |results| - k
  {
    if k == |results| {
      assert results[..k] == results;
    } else {
      assert results[..k + 1][..k] == results[..k];
      TallyNotesFailSticks(t, results, k + 1);
    }
  }

  /** Once a prefix of the decks aborts, so does the run. */
  lemma {:induction false} TallyDecksFailSticks(t: Tally, decks: seq<DeckResult>, k: nat)
    requires k <= |decks| && TallyDecks(t, decks[..k]).Failed?
    ensures TallyDecks(t, decks) == TallyDecks(t, decks[..k])
    decreases |decks| - k
  {
    if k == |decks| {
      assert decks[..k] == decks;
    } else {
      assert decks[..k + 1][..k] == decks[..k];
      TallyDecksFailSticks(t, decks, k + 1);
    }
  }

  /** One more deck extends the counting and the new decks list by that
      deck. */
  lemma DecksNext(t: Tally, decks: seq<Json>, results: seq<DeckResult>, i: nat)
    requires |results| == |decks| && i < |decks|
    ensures TallyDecks(t, results[..i + 1])
            == if TallyDecks(t, results[..i]).Failed? then TallyDecks(t, results[..i])
               else DeckStep(TallyDecks(t, results[..i]).value, results[i])
    ensures NewDecks(decks[..i + 1], results[..i + 1]) == NewDecks(decks[..i], results[..i]) + [NewDeck(decks[i], results[i])]
  {
    assert results[..i + 1][..i] == results[..i];
    assert decks[..i + 1][..i] == decks[..i];
  }

  /** One more note extends the counting and the new notes list by that
      note. */
  lemma NotesNext(t: Tally, notes: seq<Json>, results: seq<NoteResult>, j: nat)
    requires |results| == |notes| && j < |notes|
    ensures TallyNotes(t, results[..j + 1])
            == if TallyNotes(t, results[..j]).Failed? then TallyNotes(t, results[..j])
               else if results[j].Aborted? then Failed(results[j].failure)
               else Done(Count(TallyNotes(t, results[..j]).value, results[j]))
    ensures NewNotes(notes[..j + 1], results[..j + 1]) == NewNotes(notes[..j], results[..j]) + [NewNote(notes[j], results[j])]
  {
    assert results[..j + 1][..j] == results[..j];
    assert notes[..j + 1][..j] == notes[..j];
  }

  /** The counter updates of the inner loop for one note's result. */
  method Record(summary: TaskRunSummary, r: NoteResult)
    modifies summary
    ensures TallyOf(summary) == Count(old(TallyOf(summary)), r)
  {
    if r.Skipped? {
      summary.skipped := summary.skipped + 1;
    } else if r.Errored? {
      summary.eligible := summary.eligible + 1;
      summary.errors := summary.errors + 1;
    } else if r.Updated? {
      summary.eligible := summary.eligible + 1;
      summary.updated := summary.updated + 1;
    } else if r.Kept? {
      summary.eligible := summary.eligible + 1;
      summary.unchangedNotes := summary.unchangedNotes + 1;
    }
  }

  /** The inner loop of `run_task` over an in-scope deck's notes: each note
      is counted on the summary, and a patched note replaces the original. */
  method RunNotes(task: TaskConfig, deckName: string, notes: seq<Json>, configs: map<string, Models.NoteTypeConfig>,
                  reply: NotePayload -> Reply, summary: TaskRunSummary, ghost rule: NoteRule)
    returns (newNotes: seq<Json>, failure: Option<Failure>)
    requires Follows(rule, task, configs, reply)
    modifies summary
    ensures var run := TallyNotes(old(TallyOf(summary)), NoteResults(rule, deckName, notes));
      (failure.None? <==> run.Done?)
      && (failure.Some? ==> run == Failed(failure.value))
      && (run.Done? ==> TallyOf(summary) == run.value)
    ensures failure.None? ==> newNotes == NewNotes(notes, NoteResults(rule, deckName, notes))
  {
    ghost var results := NoteResults(rule, deckName, notes);
    ghost var start := TallyOf(summary);
    newNotes := [];
    var j := 0;
    while j < |notes|
      invariant 0 <= j <= |notes|
      invariant TallyNotes(start, results[..j]) == Done(TallyOf(summary))
      invariant newNotes == NewNotes(notes[..j], results[..j])
    {
      NotesNext(start, notes, results, j);
      var r := ProcessNote(task, deckName, notes[j], configs, reply);
      NoteResultsAt(rule, deckName, notes, j);
      ghost var before := TallyOf(summary);
      if r.Aborted? {
        TallyNotesFailSticks(start, results, j + 1);
        return newNotes, Some(r.failure);
      }
      Record(summary, r);
      assert TallyNotes(start, results[..j + 1]) == Done(Count(before, results[j]));
      newNotes := newNotes + [NewNote(notes[j], r)];
      j := j + 1;
    }
    assert results[..j] == results;
    assert notes[..j] == notes;
    failure := None;
  }

  /** The outer loop's body for one entry of the decks list: an
      out-of-scope deck counts all its notes as skipped, an in-scope deck
      runs the inner loop, any other entry is passed over. */
  method RunDeck(task: TaskConfig, deck: Json, configs: map<string, Models.NoteTypeConfig>,
                 reply: NotePayload -> Reply, summary: TaskRunSummary, ghost rule: NoteRule)
    returns (next: Json, failure: Option<Failure>)
    requires Follows(rule, task, configs, reply)
    modifies summary
    ensures var run := DeckStep(old(TallyOf(summary)), DeckOutcome(task, deck, rule));
      (failure.None? <==> run.Done?)
      && (failure.Some? ==> run == Failed(failure.value))
      && (run.Done? ==> TallyOf(summary) == run.value && next == NewDeck(deck, DeckOutcome(task, deck, rule)))
  {
    next := deck;
    failure := None;
    if !deck.JObj? {
      return;
    }
    var deckName := Get(deck, "name");
    var notes := Get(deck, "notes");
    if !(deckName.Some? && deckName.value.JStr? && notes.Some? && notes.value.JArr?) {
      return;
    }
    if !task.decks.Matches(deckName.value.s) {
      summary.skipped := summary.skipped + |notes.value.items|;
      return;
    }
    var newNotes, noteFailure := RunNotes(task, deckName.value.s, notes.value.items, configs, reply, summary, rule);
    if noteFailure.Some? {
      return deck, noteFailure;
    }
    next := JObj(Set(deck.members, "notes", JArr(newNotes)));
  }

  /** The outer loop of `run_task` over the serialized decks. */
  method RunDecks(task: TaskConfig, decks: seq<Json>, configs: map<string, Models.NoteTypeConfig>,
                  reply: NotePayload -> Reply, summary: TaskRunSummary, ghost rule: NoteRule)
    returns (newDecks: seq<Json>, failure: Option<Failure>)
    requires Follows(rule, task, configs, reply)
    modifies summary
    ensures var run := TallyDecks(old(TallyOf(summary)), DeckResults(task, decks, rule));
      (failure.None? <==> run.Done?)
      && (failure.Some? ==> run == Failed(failure.value))
      && (run.Done? ==> TallyOf(summary) == run.value)
    ensures failure.None? ==> newDecks == NewDecks(decks, DeckResults(task, decks, rule))
  {
    ghost var results := DeckResults(task, decks, rule);
    ghost var start := TallyOf(summary);
    newDecks := [];
    var i := 0;
    while i < |decks|
      invariant 0 <= i <= |decks|
      invariant TallyDecks(start, results[..i]) == Done(TallyOf(summary))
      invariant newDecks == NewDecks(decks[..i], results[..i])
    {
      DecksNext(start, decks, results, i);
      ghost var before := TallyOf(summary);
      var next, deckFailure := RunDeck(task, decks[i], configs, reply, summary, rule);
      DeckResultsAt(task, decks, rule, i);
      assert TallyDecks(start, results[..i + 1]) == DeckStep(before, results[i]);
      if deckFailure.Some? {
        TallyDecksFailSticks(start, results, i + 1);
        return newDecks, deckFailure;
      }
      newDecks := newDecks + [next];
      i := i + 1;
    }
    assert results[..i] == results;
    assert decks[..i] == decks;
    failure := None;
  }

  // ---------------------------------------------------------------- the run

  /** Python's `value or fallback` on an optional string: a missing or
      empty value gives the fallback. */
  function OrElse(value: Option<string>, fallback: string): (r: string)
    ensures value.Some? && value.value != "" ==> r == value.value
    ensures value.None? || value.value == "" ==> r == fallback
  {
    if value.Some? && value.value != "" then value.value else fallback
  }

  /** The task, provider, model and request options a run uses. */
  datatype Resolved = Resolved(task: TaskConfig, provider: ProviderConfig, model: string, options: TaskRequestOptions)

  /** The start of `run_task`: the named task must be loaded, and so must
      the provider it names unless another is given; a given model replaces
      the provider's, and the task's request options override the
      provider's defaults. */
  function Resolve(configSet: LlmConfigSet, taskName: string, providerOverride: Option<string>,
                   modelOverride: Option<string>): Result<Resolved>
  {
    if taskName !in configSet.tasksByName then Err("Unknown or invalid task '" + taskName + "'")
    else
      var task := configSet.tasksByName[taskName];
      var providerName := OrElse(providerOverride, task.provider);
      if providerName !in configSet.providersByName then Err("Unknown or invalid provider '" + providerName + "'")
      else
        var provider := configSet.providersByName[providerName];
        Ok(Resolved(task, provider, OrElse(modelOverride, provider.model), Merged(provider.requestDefaults, task.request)))
  }

  /** What a completed run reports: its counters, the collection it writes
      back if it writes one, and the exit status it ends with. */
  datatype RunReport = RunReport(tally: Tally, written: Option<Json>, exitCode: int)

  const MissingDecks := "Serialized collection is missing a decks list"

  /** `run_task` over an already serialized collection. */
  function RunSpec(configSet: LlmConfigSet, configs: map<string, Models.NoteTypeConfig>, taskName: string,
                   providerOverride: Option<string>, modelOverride: Option<string>, dryRun: bool, data: Json,
                   reply: NotePayload -> Reply): Run<RunReport>
  {
    match Resolve(configSet, taskName, providerOverride, modelOverride)
    case Err(e) => Failed(ValueError(e))
    case Ok(resolved) => CollectionRun(resolved.task, configs, dryRun, data, reply)
  }

  /** The run once the task is resolved: the collection must hold a decks
      list. */
  function CollectionRun(task: TaskConfig, configs: map<string, Models.NoteTypeConfig>, dryRun: bool, data: Json,
                         reply: NotePayload -> Reply): Run<RunReport>
  {
    var decks := Get(data, "decks");
    if !(decks.Some? && decks.value.JArr? && data.JObj?) then Failed(ValueError(MissingDecks))
    else
      var items := decks.value.items;
      var results := DeckResults(task, items, RuleOf(task, configs, reply));
      Report(TallyDecks(Tally(0, 0, 0, 0, 0), results), data, items, results, dryRun)
  }

  /** The report of a run that counted every deck, with the collection it
      writes back. */
  function Report(run: Run<Tally>, data: Json, items: seq<Json>, results: seq<DeckResult>, dryRun: bool): Run<RunReport>
    requires data.JObj? && |results| == |items|
  {
    match run
    case Failed(f) => Failed(f)
    case Done(t) =>
      var newData := JObj(Set(data.members, "decks", JArr(NewDecks(items, results))));
      Done(RunReport(t, if !dryRun && t.updated > 0 then Some(newData) else None, if t.errors > 0 then 1 else 0))
  }

  /** `run_task`: resolve the task and provider, count every note on a
      fresh summary, write the collection back only when not a dry run and
      some note was updated, and exit with status 1 when any note failed. */
  method RunTask(configSet: LlmConfigSet, configs: map<string, Models.NoteTypeConfig>, taskName: string,
                 providerOverride: Option<string>, modelOverride: Option<string>, dryRun: bool, data: Json,
                 reply: NotePayload -> Reply) returns (r: Run<RunReport>)
    ensures r == RunSpec(configSet, configs, taskName, providerOverride, modelOverride, dryRun, data, reply)
  {
    var resolved := Resolve(configSet, taskName, providerOverride, modelOverride);
    if resolved.Err? {
      return Failed(ValueError(resolved.error));
    }
    var task := resolved.value.task;
    var provider := resolved.value.provider;
    var summary := new TaskRunSummary(task.name, provider.name, provider.providerType, resolved.value.model);
    r := RunCollection(task, configs, dryRun, data, reply, summary);
  }

  /** The body of `run_task` after the summary is created. */
  method RunCollection(task: TaskConfig, configs: map<string, Models.NoteTypeConfig>, dryRun: bool, data: Json,
                       reply: NotePayload -> Reply, summary: TaskRunSummary) returns (r: Run<RunReport>)
    requires TallyOf(summary) == Tally(0, 0, 0, 0, 0)
    modifies summary
    ensures r == CollectionRun(task, configs, dryRun, data, reply)
  {
    var decks := Get(data, "decks");
    if !(decks.Some? && decks.value.JArr? && data.JObj?) {
      return Failed(ValueError(MissingDecks));
    }
    ghost var items := decks.value.items;
    ghost var rule := RuleOf(task, configs, reply);
    ghost var results := DeckResults(task, items, rule);
    var newDecks, failure := RunDecks(task, decks.value.items, configs, reply, summary, rule);
    if failure.Some? {
      return Failed(failure.value);
    }
    var written: Option<Json> := None;
    if !dryRun && summary.updated > 0 {
      written := Some(JObj(Set(data.members, "decks", JArr(newDecks))));
    }
    r := Done(RunReport(TallyOf(summary), written, if summary.errors > 0 then 1 else 0));
  }

  /** A run completes exactly when the task and provider resolve, the
      collection has a decks list and no note aborts. Then every note given
      to the provider ends updated, unchanged or in error, the skipped notes
      are those of out-of-scope decks plus those without a payload, the
      collection is written exactly when not a dry run and some note was
      updated, and the exit status is 1 exactly when some note failed. */
  lemma RunCounts(configSet: LlmConfigSet, configs: map<string, Models.NoteTypeConfig>, taskName: string,
                  providerOverride: Option<string>, modelOverride: Option<string>, dryRun: bool, data: Json,
                  reply: NotePayload -> Reply)
    requires Resolve(configSet, taskName, providerOverride, modelOverride).Ok?
    requires Get(data, "decks").Some? && Get(data, "decks").value.JArr?
    ensures var results := DeckResults(Resolve(configSet, taskName, providerOverride, modelOverride).value.task,
                                       Get(data, "decks").value.items,
                                       RuleOf(Resolve(configSet, taskName, providerOverride, modelOverride).value.task,
                                              configs, reply));
      var run := RunSpec(configSet, configs, taskName, providerOverride, modelOverride, dryRun, data, reply);
      (run.Done? <==> !AnyAborted(results))
      && (run.Done? ==>
            var t := run.value.tally;
            Balanced(t)
            && t.eligible == NotesWhere(results, IsEligible)
            && t.skipped == OutOfScopeNotes(results) + NotesWhere(results, IsSkipped)
            && (run.value.written.Some? <==> !dryRun && t.updated > 0)
            && (run.value.exitCode == 1 <==> t.errors > 0))
  {
    var results := DeckResults(Resolve(configSet, taskName, providerOverride, modelOverride).value.task,
                               Get(data, "decks").value.items,
                                       RuleOf(Resolve(configSet, taskName, providerOverride, modelOverride).value.task,
                                              configs, reply));
    var zero := Tally(0, 0, 0, 0, 0);
    TallyDecksCounts(zero, results);
    if TallyDecks(zero, results).Done? {
      CountsBalanced(zero, results);
    }
  }
}
