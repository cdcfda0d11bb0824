/** Checking one edited note returned by the model against its task, writing
    the changed fields back, and the bounded warning list of a task run. */
module TaskApply {
  import opened Wrappers
  import opened Json
  import Text
  import Seqs

  /** One note selected for a task: where it lives, what may be written,
      the write fields' text before the run, and the payload sent. */
  datatype NoteTask = NoteTask(
    deckName: string,
    noteKey: string,
    noteType: string,
    noteFields: seq<(string, Json)>,
    originalWriteFields: map<string, string>,
    writeFields: seq<string>,
    payloadFields: seq<(string, string)>,
    deckIndex: nat)

  /** A note as the model returned it. Field values are whatever JSON came
      back; only strings are acceptable. */
  datatype InlineEditedNote = InlineEditedNote(noteKey: string, fields: map<string, Json>, noteType: Option<string>)

  datatype TaskChange = TaskChange(
    taskId: string,
    deckName: string,
    noteKey: string,
    noteType: string,
    fieldName: string,
    originalText: string,
    editedText: string)

  predicate StrField(fields: map<string, Json>, name: string) {
    name in fields && fields[name].JStr?
  }

  /** The write fields the response left out or gave a non-string value,
      in write-field order. */
  function InvalidFields(writeFields: seq<string>, fields: map<string, Json>): (r: seq<string>)
    ensures forall f :: f in r <==> f in writeFields && !StrField(fields, f)
    decreases |writeFields|
  {
    if |writeFields| == 0 then []
    else
      var head := if StrField(fields, writeFields[0]) then [] else [writeFields[0]];
      head + InvalidFields(writeFields[1..], fields)
  }

  /** `validate_edited_note`: a key mismatch is reported first; otherwise
      every write field must be a string in the response. */
  function ValidateEditedNote(task: NoteTask, edited: InlineEditedNote): (r: Option<string>)
    ensures edited.noteKey != task.noteKey ==> r == Some("response note_key mismatch")
    ensures edited.noteKey == task.noteKey ==>
      (r.None? <==> forall f :: f in task.writeFields ==> StrField(edited.fields, f))
    ensures edited.noteKey == task.noteKey && r.Some? ==>
      r.value == "response fields invalid: " + Text.Join(InvalidFields(task.writeFields, edited.fields), ", ")
  {
    if edited.noteKey != task.noteKey then Some("response note_key mismatch")
    else
      var invalid := InvalidFields(task.writeFields, edited.fields);
      if |invalid| > 0 then
        assert invalid[0] in invalid;
        Some("response fields invalid: " + Text.Join(invalid, ", "))
      else
        assert forall f :: f in task.writeFields ==> StrField(edited.fields, f);
        None
  }

  /** Every write field of a task has its original text recorded, as
      `iter_note_tasks` builds tasks. */
  predicate WellFormedTask(task: NoteTask) {
    forall f :: f in task.writeFields ==> f in task.originalWriteFields
  }

  /** What `apply_note_changes` may assume: the task is well formed and the
      response passed validation. */
  predicate Applicable(task: NoteTask, edited: InlineEditedNote) {
    ValidateEditedNote(task, edited).None? && WellFormedTask(task)
  }

  /** Every write field has its original text and a string in the
      response. */
  predicate Writable(task: NoteTask, edited: InlineEditedNote) {
    forall f :: f in task.writeFields ==> f in task.originalWriteFields && StrField(edited.fields, f)
  }

  lemma ApplicableWritable(task: NoteTask, edited: InlineEditedNote)
    requires Applicable(task, edited)
    ensures Writable(task, edited)
  {
  }

  function EditedText(edited: InlineEditedNote, f: string): string {
    if StrField(edited.fields, f) then edited.fields[f].s else ""
  }

  function OriginalText(task: NoteTask, f: string): string {
    if f in task.originalWriteFields then task.originalWriteFields[f] else ""
  }

  predicate Differs(task: NoteTask, edited: InlineEditedNote, f: string) {
    EditedText(edited, f) != OriginalText(task, f)
  }

  /** The fields among `names` whose edited text differs, in order. */
  function ChangedNames(task: NoteTask, edited: InlineEditedNote, names: seq<string>): (r: seq<string>)
    ensures forall f :: f in r <==> f in names && Differs(task, edited, f)
    ensures |r| <= |names|
    decreases |names|
  {
    if |names| == 0 then []
    else
      var last := names[|names| - 1];
      var init := names[..|names| - 1];
      assert names == init + [last];
      ChangedNames(task, edited, init) + (if Differs(task, edited, last) then [last] else [])
  }

  /** The change records of the fields among `names` that differ. */
  function ChangesOf(task: NoteTask, edited: InlineEditedNote, taskId: string, names: seq<string>): (r: seq<TaskChange>)
    ensures |r| == |ChangedNames(task, edited, names)|
    ensures forall i :: 0 <= i < |r| ==>
      r[i].fieldName == ChangedNames(task, edited, names)[i]
      && r[i].originalText != r[i].editedText
    decreases |names|
  {
    if |names| == 0 then []
    else
      var last := names[|names| - 1];
      var init := names[..|names| - 1];
      ChangesOf(task, edited, taskId, init)
      + (if Differs(task, edited, last) then
           [TaskChange(taskId, task.deckName, task.noteKey, task.noteType, last,
                       OriginalText(task, last), EditedText(edited, last))]
         else [])
  }

  /** The note's fields after writing every differing field among `names`. */
  function Patched(task: NoteTask, edited: InlineEditedNote, names: seq<string>): seq<(string, Json)>
    decreases |names|
  {
    if |names| == 0 then task.noteFields
    else
      var last := names[|names| - 1];
      var init := names[..|names| - 1];
      var before := Patched(task, edited, init);
      if Differs(task, edited, last) then Set(before, last, JStr(EditedText(edited, last))) else before
  }

  /** Only differing write fields are touched, and each ends up holding the
      edited text; every other member of the note keeps its value. */
  lemma {:induction false} PatchedFields(task: NoteTask, edited: InlineEditedNote, names: seq<string>, f: string)
    ensures f in names && Differs(task, edited, f) ==>
      Lookup(Patched(task, edited, names), f) == Some(JStr(EditedText(edited, f)))
    ensures !(f in names && Differs(task, edited, f)) ==>
      Lookup(Patched(task, edited, names), f) == Lookup(task.noteFields, f)
    decreases |names|
  {
    if |names| > 0 {
      var last := names[|names| - 1];
      var init := names[..|names| - 1];
      assert names == init + [last];
      PatchedFields(task, edited, init, f);
    }
  }

  /** One more write field considered: each specification grows by that
      field's contribution. */
  lemma Step(task: NoteTask, edited: InlineEditedNote, taskId: string, names: seq<string>, i: nat)
    requires i < |names|
    ensures var f := names[i];
      var p := names[..i];
      ChangedNames(task, edited, names[..i + 1])
        == ChangedNames(task, edited, p) + (if Differs(task, edited, f) then [f] else [])
      && ChangesOf(task, edited, taskId, names[..i + 1])
        == ChangesOf(task, edited, taskId, p)
           + (if Differs(task, edited, f) then
                [TaskChange(taskId, task.deckName, task.noteKey, task.noteType, f,
                            OriginalText(task, f), EditedText(edited, f))]
              else [])
      && Patched(task, edited, names[..i + 1])
        == (if Differs(task, edited, f) then Set(Patched(task, edited, p), f, JStr(EditedText(edited, f)))
            else Patched(task, edited, p))
  {
    Seqs.TakeTake(names, i + 1, i);
  }

  /** Counters and diagnostics of one task run. */
  class TaskRunResult {
    var processedDecks: nat
    var processedNotes: nat
    var matchedNotes: nat
    var changedFields: nat
    var changes: seq<TaskChange>
    var warnings: seq<string>
    var droppedWarnings: nat

    /** Every field change was recorded exactly once. */
    ghost predicate Valid()
      reads this
    {
      changedFields == |changes|
    }

    constructor ()
      ensures processedDecks == 0 && processedNotes == 0 && matchedNotes == 0
      ensures changedFields == 0 && changes == [] && warnings == [] && droppedWarnings == 0
    {
      processedDecks := 0;
      processedNotes := 0;
      matchedNotes := 0;
      changedFields := 0;
      changes := [];
      warnings := [];
      droppedWarnings := 0;
    }

    /** `add_warning`: appends below the cap, otherwise counts the warning
        as dropped. Either way exactly one warning is accounted for. */
    method AddWarning(warning: string, maxWarnings: int)
      modifies this
      ensures |old(warnings)| < maxWarnings ==>
        warnings == old(warnings) + [warning] && droppedWarnings == old(droppedWarnings)
      ensures |old(warnings)| >= maxWarnings ==>
        warnings == old(warnings) && droppedWarnings == old(droppedWarnings) + 1
      ensures |warnings| + droppedWarnings == |old(warnings)| + old(droppedWarnings) + 1
      ensures |old(warnings)| <= maxWarnings ==> |warnings| <= maxWarnings
      ensures old(Valid()) ==> Valid()
      ensures processedDecks == old(processedDecks) && processedNotes == old(processedNotes)
      ensures matchedNotes == old(matchedNotes) && changedFields == old(changedFields)
      ensures changes == old(changes)
    {
      if |warnings| < maxWarnings {
        warnings := warnings + [warning];
        return;
      }
      droppedWarnings := droppedWarnings + 1;
    }

    /** `apply_note_changes`: writes every write field whose edited text
        differs, records one change per write, and reports whether anything
        was written. The note's fields are returned rather than updated in
        place. */
    method ApplyNoteChanges(task: NoteTask, edited: InlineEditedNote, taskId: string)
      returns (changedAny: bool, noteFields: seq<(string, Json)>)
      requires Applicable(task, edited)
      modifies this
      ensures noteFields == Patched(task, edited, task.writeFields)
      ensures changedFields == old(changedFields) + |ChangedNames(task, edited, task.writeFields)|
      ensures changes == old(changes) + ChangesOf(task, edited, taskId, task.writeFields)
      ensures changedAny <==> |ChangedNames(task, edited, task.writeFields)| > 0
      ensures old(Valid()) ==> Valid()
      ensures processedDecks == old(processedDecks) && processedNotes == old(processedNotes)
      ensures matchedNotes == old(matchedNotes) && warnings == old(warnings)
      ensures droppedWarnings == old(droppedWarnings)
    {
      ApplicableWritable(task, edited);
      var written, log;
      written, log, noteFields := WriteFields(task, edited, taskId);
      changedFields := changedFields + written;
      changes := changes + log;
      changedAny := written > 0;
    }

    /** The loop of `apply_note_changes` over the write fields: how many
        fields were written, their change records, and the patched fields. */
    static method WriteFields(task: NoteTask, edited: InlineEditedNote, taskId: string)
      returns (written: nat, log: seq<TaskChange>, noteFields: seq<(string, Json)>)
      requires Writable(task, edited)
      ensures written == |ChangedNames(task, edited, task.writeFields)|
      ensures log == ChangesOf(task, edited, taskId, task.writeFields)
      ensures noteFields == Patched(task, edited, task.writeFields)
    {
      written := 0;
      log := [];
      noteFields := task.noteFields;
      var names := task.writeFields;
      var i := 0;
      while i < |names|
        invariant 0 <= i <= |names|
        invariant noteFields == Patched(task, edited, names[..i])
        invariant written == |ChangedNames(task, edited, names[..i])|
        invariant log == ChangesOf(task, edited, taskId, names[..i])
      {
        var f := names[i];
        Step(task, edited, taskId, names, i);
        var originalText := task.originalWriteFields[f];
        var editedText := edited.fields[f].s;
        assert originalText == OriginalText(task, f) && editedText == EditedText(edited, f);
        if editedText != originalText {
          noteFields := Set(noteFields, f, JStr(editedText));
          written := written + 1;
          log := log + [TaskChange(taskId, task.deckName, task.noteKey, task.noteType, f, originalText, editedText)];
        }
        i := i + 1;
      }
      Seqs.TakeAll(names);
    }
  }
}
