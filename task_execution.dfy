/** Cutting a task's notes into batches, turning one batch's editor reply
    into a chunk result, and applying a chunk result to the notes and the
    run's counters. */
module TaskExecution {
  import opened Wrappers
  import opened Json
  import Text
  import Seqs
  import Chunking
  import opened TaskApply

  // ---------------------------------------------------------------- chunks

  /** The batch size `iter_task_chunks` effectively uses: a chunk is emitted
      as soon as it holds `batch_size` tasks, so any size below one behaves
      as one. */
  function EffectiveBatch(batchSize: int): (n: nat)
    ensures n >= 1 && (batchSize >= 1 ==> n == batchSize)
  {
    if batchSize < 1 then 1 else batchSize
  }

  /** `iter_task_chunks`, run to exhaustion: the chunks concatenate to the
      tasks in order, each is non-empty and at most the batch size, and all
      but the last are full. */
  method IterTaskChunks(tasks: seq<NoteTask>, batchSize: int) returns (chunks: seq<seq<NoteTask>>)
    ensures chunks == Chunking.Chunks(tasks, EffectiveBatch(batchSize))
    ensures Chunking.Flatten(chunks) == tasks
    ensures forall i :: 0 <= i < |chunks| ==> 0 < |chunks[i]| <= EffectiveBatch(batchSize)
    ensures forall i :: 0 <= i < |chunks| - 1 ==> |chunks[i]| == EffectiveBatch(batchSize)
  {
    var n := EffectiveBatch(batchSize);
    chunks := [];
    var chunk: seq<NoteTask> := [];
    var i := 0;
    while i < |tasks|
      invariant 0 <= i <= |tasks|
      invariant Chunking.AllFull(chunks, n) && |chunk| < n
      invariant Chunking.Flatten(chunks) + chunk == tasks[..i]
    {
      Seqs.TakeNext(tasks, i);
      chunk := chunk + [tasks[i]];
      if |chunk| >= batchSize {
        Chunking.FlattenAppend(chunks, [chunk]);
        assert Chunking.Flatten([chunk]) == chunk by {
          assert [chunk][1..] == [];
        }
        chunks := chunks + [chunk];
        chunk := [];
      }
      i := i + 1;
    }
    Seqs.TakeAll(tasks);
    if |chunk| > 0 {
      Chunking.ChunksOfFull(chunks, chunk, n);
      chunks := chunks + [chunk];
    } else {
      Chunking.ChunksOfFull(chunks, chunk, n);
      assert Chunking.Flatten(chunks) == tasks;
    }
    Chunking.ChunksFlatten(tasks, n);
    Chunking.ChunksSizes(tasks, n);
  }

  // ---------------------------------------------------------------- one chunk

  /** What the editor did with one batch: it returned a dict of edited notes,
      returned something else, or raised an exception of the named class. */
  datatype EditorReply =
    | Edited(byKey: map<string, InlineEditedNote>)
    | NotADict
    | Raised(errorClass: string, message: string)

  datatype ChunkResult = ChunkResult(
    chunk: seq<NoteTask>,
    editedByNoteKey: Option<map<string, InlineEditedNote>>,
    error: Option<string>)

  /** `_format_chunk_error`: the class name alone for a blank message,
      otherwise `Class: message` with the message stripped. */
  function FormatChunkError(errorClass: string, message: string): (r: string)
    ensures Text.IsBlank(message) ==> r == errorClass
    ensures !Text.IsBlank(message) ==> r == errorClass + ": " + Text.Strip(message)
  {
    var m := Text.Strip(message);
    if m == [] then errorClass else errorClass + ": " + m
  }

  /** `run_chunk`: never raises. A dict reply becomes the edited notes; a
      non-dict reply and an exception become an error result. */
  function RunChunk(chunk: seq<NoteTask>, reply: EditorReply): (r: ChunkResult)
    ensures r.chunk == chunk
    ensures r.error.None? <==> reply.Edited?
    ensures r.error.None? ==> r.editedByNoteKey == Some(reply.byKey)
    ensures r.error.Some? ==> r.editedByNoteKey.None?
    ensures reply.NotADict? ==> r.error == Some("response is not a JSON object keyed by note_key")
    ensures reply.Raised? ==> r.error == Some(FormatChunkError(reply.errorClass, reply.message))
  {
    match reply
    case Edited(byKey) => ChunkResult(chunk, Some(byKey), None)
    case NotADict => ChunkResult(chunk, None, Some("response is not a JSON object keyed by note_key"))
    case Raised(cls, msg) => ChunkResult(chunk, None, Some(FormatChunkError(cls, msg)))
  }

  // ---------------------------------------------------------------- applying a chunk

  /** A task's edited note, when it passed validation. */
  predicate Accepted(task: NoteTask, edited: map<string, InlineEditedNote>) {
    task.noteKey in edited && ValidateEditedNote(task, edited[task.noteKey]).None?
  }

  /** The tasks among `chunk` that get a warning: missing from the reply or
      failing validation. */
  function RejectedCount(chunk: seq<NoteTask>, edited: map<string, InlineEditedNote>): (r: nat)
    ensures r <= |chunk|
    decreases |chunk|
  {
    if |chunk| == 0 then 0
    else RejectedCount(chunk[..|chunk| - 1], edited) + (if Accepted(chunk[|chunk| - 1], edited) then 0 else 1)
  }

  /** The change records one task contributes. */
  function TaskChanges(t: NoteTask, edited: map<string, InlineEditedNote>, taskId: string): seq<TaskChange> {
    if Accepted(t, edited) then ChangesOf(t, edited[t.noteKey], taskId, t.writeFields) else []
  }

  /** The deck index one task contributes: its own, when it wrote a field. */
  function TaskDecks(t: NoteTask, edited: map<string, InlineEditedNote>): set<nat> {
    if Accepted(t, edited) && |ChangedNames(t, edited[t.noteKey], t.writeFields)| > 0 then {t.deckIndex} else {}
  }

  /** The change records of the accepted tasks, in chunk order. */
  function ChunkChanges(chunk: seq<NoteTask>, edited: map<string, InlineEditedNote>, taskId: string): seq<TaskChange>
    decreases |chunk|
  {
    if |chunk| == 0 then []
    else
      ChunkChanges(chunk[..|chunk| - 1], edited, taskId) + TaskChanges(chunk[|chunk| - 1], edited, taskId)
  }

  /** The deck indexes of accepted tasks that changed at least one field. */
  function ChangedDecks(chunk: seq<NoteTask>, edited: map<string, InlineEditedNote>): set<nat>
    decreases |chunk|
  {
    if |chunk| == 0 then {}
    else
      ChangedDecks(chunk[..|chunk| - 1], edited) + TaskDecks(chunk[|chunk| - 1], edited)
  }

  predicate ChunkWellFormed(chunk: seq<NoteTask>) {
    forall i :: 0 <= i < |chunk| ==> WellFormedTask(chunk[i])
  }

  /** A deck index is recorded only for a task that was accepted and wrote
      a field. */
  lemma {:induction false} ChangedDecksWitness(chunk: seq<NoteTask>, edited: map<string, InlineEditedNote>, d: nat)
    requires d in ChangedDecks(chunk, edited)
    ensures exists i :: 0 <= i < |chunk| && chunk[i].deckIndex == d && Accepted(chunk[i], edited)
              && |ChangedNames(chunk[i], edited[chunk[i].noteKey], chunk[i].writeFields)| > 0
    decreases |chunk|
  {
    var k := |chunk| - 1;
    var t := chunk[k];
    if d in ChangedDecks(chunk[..k], edited) {
      ChangedDecksWitness(chunk[..k], edited, d);
      var i :| 0 <= i < k && chunk[..k][i].deckIndex == d && Accepted(chunk[..k][i], edited)
              && |ChangedNames(chunk[..k][i], edited[chunk[..k][i].noteKey], chunk[..k][i].writeFields)| > 0;
      assert chunk[i] == chunk[..k][i];
    } else {
      assert t.deckIndex == d;
    }
  }

  /** Every field change of a chunk belongs to one of its accepted tasks and
      really changes the text. */
  lemma {:induction false} ChunkChangesReal(chunk: seq<NoteTask>, edited: map<string, InlineEditedNote>, taskId: string)
    ensures forall c :: c in ChunkChanges(chunk, edited, taskId) ==> c.originalText != c.editedText && c.taskId == taskId
    decreases |chunk|
  {
    if |chunk| > 0 {
      var t := chunk[|chunk| - 1];
      ChunkChangesReal(chunk[..|chunk| - 1], edited, taskId);
      if Accepted(t, edited) {
        ChangesOfTagged(t, edited[t.noteKey], taskId, t.writeFields);
      }
    }
  }

  lemma {:induction false} ChangesOfTagged(task: NoteTask, edited: InlineEditedNote, taskId: string, names: seq<string>)
    ensures forall c :: c in ChangesOf(task, edited, taskId, names) ==> c.taskId == taskId && c.noteKey == task.noteKey
    decreases |names|
  {
    if |names| > 0 {
      ChangesOfTagged(task, edited, taskId, names[..|names| - 1]);
    }
  }

  /** One more task of the chunk: each specification grows by that task's
      contribution. */
  lemma ChunkStep(chunk: seq<NoteTask>, edited: map<string, InlineEditedNote>, taskId: string, i: nat)
    requires i < |chunk|
    ensures var t := chunk[i];
      var p := chunk[..i];
      RejectedCount(chunk[..i + 1], edited) == RejectedCount(p, edited) + (if Accepted(t, edited) then 0 else 1)
      && ChunkChanges(chunk[..i + 1], edited, taskId) == ChunkChanges(p, edited, taskId) + TaskChanges(t, edited, taskId)
      && ChangedDecks(chunk[..i + 1], edited) == ChangedDecks(p, edited) + TaskDecks(t, edited)
  {
    Seqs.TakeTake(chunk, i + 1, i);
  }

  /** The error branch of `apply_chunk_result`: one warning per task. */
  method WarnAll(chunk: seq<NoteTask>, error: string, maxWarnings: int, result: TaskRunResult)
    modifies result
    ensures |result.warnings| + result.droppedWarnings
            == |old(result.warnings)| + old(result.droppedWarnings) + |chunk|
    ensures |old(result.warnings)| <= maxWarnings ==> |result.warnings| <= maxWarnings
    ensures result.changes == old(result.changes) && result.changedFields == old(result.changedFields)
    ensures result.processedDecks == old(result.processedDecks) && result.processedNotes == old(result.processedNotes)
    ensures result.matchedNotes == old(result.matchedNotes)
  {
    var i := 0;
    while i < |chunk|
      invariant 0 <= i <= |chunk|
      invariant |result.warnings| + result.droppedWarnings
                == |old(result.warnings)| + old(result.droppedWarnings) + i
      invariant |old(result.warnings)| <= maxWarnings ==> |result.warnings| <= maxWarnings
      invariant result.changes == old(result.changes) && result.changedFields == old(result.changedFields)
      invariant result.processedDecks == old(result.processedDecks)
      invariant result.processedNotes == old(result.processedNotes)
      invariant result.matchedNotes == old(result.matchedNotes)
    {
      result.AddWarning(chunk[i].deckName + "/" + chunk[i].noteKey + ": " + error, maxWarnings);
      i := i + 1;
    }
  }

  /** One task of a successful chunk: a warning when the reply lacks the
      note or the note fails validation, otherwise its changes applied. */
  method ApplyTask(t: NoteTask, edited: map<string, InlineEditedNote>, taskId: string, maxWarnings: int,
                   result: TaskRunResult)
    returns (fields: Option<seq<(string, Json)>>, changed: bool)
    requires WellFormedTask(t)
    modifies result
    ensures fields.Some? <==> Accepted(t, edited)
    ensures fields.Some? ==> fields.value == Patched(t, edited[t.noteKey], t.writeFields)
    ensures changed <==> Accepted(t, edited) && |ChangedNames(t, edited[t.noteKey], t.writeFields)| > 0
    ensures changed ==> TaskDecks(t, edited) == {t.deckIndex}
    ensures !changed ==> TaskDecks(t, edited) == {}
    ensures result.changes == old(result.changes) + TaskChanges(t, edited, taskId)
    ensures result.changedFields == old(result.changedFields) + |TaskChanges(t, edited, taskId)|
    ensures |result.warnings| + result.droppedWarnings
            == |old(result.warnings)| + old(result.droppedWarnings) + (if Accepted(t, edited) then 0 else 1)
    ensures |old(result.warnings)| <= maxWarnings ==> |result.warnings| <= maxWarnings
    ensures result.processedDecks == old(result.processedDecks) && result.processedNotes == old(result.processedNotes)
    ensures result.matchedNotes == old(result.matchedNotes)
  {
    fields := None;
    changed := false;
    if t.noteKey !in edited {
      result.AddWarning(t.deckName + "/" + t.noteKey + ": response missing note_key", maxWarnings);
      return;
    }
    var e := edited[t.noteKey];
    var error := ValidateEditedNote(t, e);
    if error.Some? {
      result.AddWarning(t.deckName + "/" + t.noteKey + ": " + error.value, maxWarnings);
      return;
    }
    var patched;
    changed, patched := result.ApplyNoteChanges(t, e, taskId);
    fields := Some(patched);
  }

  /** The state of `apply_chunk_result` after the first `i` tasks of a
      successful chunk, relative to the counters it started from. */
  ghost predicate Progress(chunk: seq<NoteTask>, edited: map<string, InlineEditedNote>, taskId: string, i: nat,
                           baseDecks: set<nat>, baseChanges: seq<TaskChange>, baseFields: nat, baseWarnings: nat,
                           decks: set<nat>, patched: map<nat, seq<(string, Json)>>,
                           changes: seq<TaskChange>, changedFields: nat, warningCount: nat)
    requires i <= |chunk|
  {
    decks == baseDecks + ChangedDecks(chunk[..i], edited)
    && changes == baseChanges + ChunkChanges(chunk[..i], edited, taskId)
    && changedFields == baseFields + |ChunkChanges(chunk[..i], edited, taskId)|
    && warningCount == baseWarnings + RejectedCount(chunk[..i], edited)
    && forall j :: j in patched ==>
         (j < i && Accepted(chunk[j], edited)
          && patched[j] == Patched(chunk[j], edited[chunk[j].noteKey], chunk[j].writeFields))
  }

  /** One iteration of `apply_chunk_result` over a successful chunk. */
  method ApplyAt(chunk: seq<NoteTask>, i: nat, edited: map<string, InlineEditedNote>, taskId: string,
                 maxWarnings: int, result: TaskRunResult, decks: set<nat>, patched: map<nat, seq<(string, Json)>>,
                 ghost baseDecks: set<nat>, ghost baseChanges: seq<TaskChange>, ghost baseFields: nat,
                 ghost baseWarnings: nat)
    returns (decks': set<nat>, patched': map<nat, seq<(string, Json)>>)
    requires i < |chunk| && WellFormedTask(chunk[i])
    requires Progress(chunk, edited, taskId, i, baseDecks, baseChanges, baseFields, baseWarnings, decks, patched,
                      result.changes, result.changedFields, |result.warnings| + result.droppedWarnings)
    modifies result
    ensures Progress(chunk, edited, taskId, i + 1, baseDecks, baseChanges, baseFields, baseWarnings, decks', patched',
                     result.changes, result.changedFields, |result.warnings| + result.droppedWarnings)
    ensures |old(result.warnings)| <= maxWarnings ==> |result.warnings| <= maxWarnings
    ensures result.processedDecks == old(result.processedDecks) && result.processedNotes == old(result.processedNotes)
    ensures result.matchedNotes == old(result.matchedNotes)
  {
    ChunkStep(chunk, edited, taskId, i);
    ghost var before := ChunkChanges(chunk[..i], edited, taskId);
    ghost var added := TaskChanges(chunk[i], edited, taskId);
    var fields, changed := ApplyTask(chunk[i], edited, taskId, maxWarnings, result);
    patched' := if fields.Some? then patched[i := fields.value] else patched;
    decks' := if changed then decks + {chunk[i].deckIndex} else decks;
    assert decks' == baseDecks + ChangedDecks(chunk[..i + 1], edited);
    Seqs.AppendAssoc(baseChanges, before, added);
    assert result.changedFields == baseFields + |ChunkChanges(chunk[..i + 1], edited, taskId)|;
    assert |result.warnings| + result.droppedWarnings == baseWarnings + RejectedCount(chunk[..i + 1], edited);
    assert forall j :: j in patched' ==>
         (j < i + 1 && Accepted(chunk[j], edited)
          && patched'[j] == Patched(chunk[j], edited[chunk[j].noteKey], chunk[j].writeFields));
  }

  /** `apply_chunk_result`. An error result adds one warning per task and
      changes nothing else. Otherwise each task missing from the reply or
      failing validation adds a warning and is skipped; the others have
      their differing write fields written. Returns the recorded deck
      indexes and, per position in the chunk, the patched note fields. */
  method ApplyChunkResult(cr: ChunkResult, taskId: string, changedDeckIndexes: set<nat>, maxWarnings: int,
                          result: TaskRunResult)
    returns (decks: set<nat>, patched: map<nat, seq<(string, Json)>>)
    requires ChunkWellFormed(cr.chunk)
    modifies result
    ensures cr.error.Some? ==>
      decks == changedDeckIndexes && patched == map[]
      && result.changes == old(result.changes) && result.changedFields == old(result.changedFields)
      && |result.warnings| + result.droppedWarnings
         == |old(result.warnings)| + old(result.droppedWarnings) + |cr.chunk|
    ensures cr.error.None? ==>
      var edited := cr.editedByNoteKey.GetOr(map[]);
      decks == changedDeckIndexes + ChangedDecks(cr.chunk, edited)
      && result.changes == old(result.changes) + ChunkChanges(cr.chunk, edited, taskId)
      && result.changedFields == old(result.changedFields) + |ChunkChanges(cr.chunk, edited, taskId)|
      && |result.warnings| + result.droppedWarnings
         == |old(result.warnings)| + old(result.droppedWarnings) + RejectedCount(cr.chunk, edited)
      && (forall i :: i in patched ==>
            (i < |cr.chunk| && Accepted(cr.chunk[i], edited)
             && patched[i] == Patched(cr.chunk[i], edited[cr.chunk[i].noteKey], cr.chunk[i].writeFields)))
    ensures |old(result.warnings)| <= maxWarnings ==> |result.warnings| <= maxWarnings
    ensures result.processedDecks == old(result.processedDecks) && result.processedNotes == old(result.processedNotes)
    ensures result.matchedNotes == old(result.matchedNotes)
  {
    decks := changedDeckIndexes;
    patched := map[];
    var chunk := cr.chunk;
    if cr.error.Some? {
      WarnAll(chunk, cr.error.value, maxWarnings, result);
      return;
    }
    var edited := cr.editedByNoteKey.GetOr(map[]);
    var i := 0;
    ghost var w0 := |result.warnings| + result.droppedWarnings;
    while i < |chunk|
      invariant 0 <= i <= |chunk|
      invariant Progress(chunk, edited, taskId, i, changedDeckIndexes, old(result.changes), old(result.changedFields), w0,
                         decks, patched, result.changes, result.changedFields,
                         |result.warnings| + result.droppedWarnings)
      invariant |old(result.warnings)| <= maxWarnings ==> |result.warnings| <= maxWarnings
      invariant result.processedDecks == old(result.processedDecks)
      invariant result.processedNotes == old(result.processedNotes)
      invariant result.matchedNotes == old(result.matchedNotes)
    {
      decks, patched := ApplyAt(chunk, i, edited, taskId, maxWarnings, result, decks, patched,
                                changedDeckIndexes, old(result.changes), old(result.changedFields), w0);
      i := i + 1;
    }
    Seqs.TakeAll(chunk);
  }
}
