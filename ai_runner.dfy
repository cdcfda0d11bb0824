/** The batch prompt runner (`PromptRunner.run_async`): the options are
    checked, the decks selected, the notes to prompt collected as tasks,
    the tasks cut into chunks for the editor, and the answers applied in
    chunk order to a working copy of the decks. Deck selection, the note
    checks, the review of an edited fields dict and the loop that writes
    the changed target fields are the ones `ankiops/ai.py` uses, and are
    taken from module `Ai`. */
module AiRunner {
  import opened Wrappers
  import opened Json
  import Text
  import Glob
  import Seqs
  import Chunking
  import TaskSelection
  import Ai

  // ---------------------------------------------------------------- options

  /** `PromptRunOptions`; `max_warnings` is not read by this runner. */
  datatype Options = Options(includeDecks: Option<seq<string>>, batchSize: int, maxInFlight: int)

  const BatchSizeMessage: string := "batch_size must be > 0"
  const MaxInFlightMessage: string := "max_in_flight must be > 0"

  /** `_validate_options`: the error it raises, if any. */
  function ValidateOptions(o: Options): Option<string> {
    if o.batchSize <= 0 then Some(BatchSizeMessage)
    else if o.maxInFlight <= 0 then Some(MaxInFlightMessage)
    else None
  }

  // ---------------------------------------------------------------- collection

  /** `_NoteTask`: a prompted note, the deck it came from, where it sits in
      the working decks, and what it is sent and may write. */
  datatype Task = Task(deckName: string, deckIndex: nat, noteIndex: nat, task: Ai.NoteTask)

  /** The tallies and the tasks collected so far. */
  datatype Collected = Collected(result: Ai.PromptRunResult, tasks: seq<Task>)

  /** One pass of the note loop of `_collect_tasks`, given what the checks
      made of the note (with its key stripped). */
  function CollectStep(deckName: string, di: nat, ni: nat, acc: Collected, prep: Ai.Prep): Collected {
    var r := acc.result;
    match prep
    case NotNote => acc
    case MissingKey =>
      Collected(r.(processedNotes := r.processedNotes + 1, warnings := r.warnings + [deckName + Ai.MissingKeyWarning]),
                acc.tasks)
    case Ignored => Collected(r.(processedNotes := r.processedNotes + 1), acc.tasks)
    case Ready(t) =>
      Collected(r.(processedNotes := r.processedNotes + 1, promptedNotes := r.promptedNotes + 1),
                acc.tasks + [Task(deckName, di, ni, t)])
  }

  /** The note loop over one deck's notes list. */
  function CollectNotes(p: Ai.PromptConfig, deckName: string, di: nat, acc: Collected, notes: seq<Json>): Collected
    decreases |notes|
  {
    if |notes| == 0 then acc
    else
      var n := |notes| - 1;
      CollectStep(deckName, di, n, CollectNotes(p, deckName, di, acc, notes[..n]), Ai.Prepare(notes[n], p, true))
  }

  /** One pass of the deck loop: a deck whose notes are not a list is
      skipped; a deck without notes counts as visited. */
  function CollectDeck(p: Ai.PromptConfig, di: nat, acc: Collected, deck: Json): Collected
    requires deck.JObj?
  {
    var notes := Ai.NotesOf(deck);
    if !notes.JArr? then acc
    else
      var start := acc.(result := acc.result.(processedDecks := acc.result.processedDecks + 1));
      CollectNotes(p, TaskSelection.DeckName(deck), di, start, notes.items)
  }

  /** `_collect_tasks` over the working decks. */
  function CollectDecks(p: Ai.PromptConfig, decks: seq<Json>): Collected
    requires Ai.AllObjects(decks)
    decreases |decks|
  {
    if |decks| == 0 then Collected(Ai.EmptyResult, [])
    else
      var n := |decks| - 1;
      CollectDeck(p, n, CollectDecks(p, decks[..n]), decks[n])
  }

  /** The loop of `_collect_tasks`. */
  method CollectTasks(p: Ai.PromptConfig, decks: seq<Json>) returns (c: Collected)
    requires Ai.AllObjects(decks)
    ensures c == CollectDecks(p, decks)
  {
    c := Collected(Ai.EmptyResult, []);
    var i := 0;
    while i < |decks|
      invariant 0 <= i <= |decks|
      invariant c == CollectDecks(p, decks[..i])
    {
      CollectDecksNext(p, decks, i);
      c := CollectDeckTasks(p, i, c, decks[i]);
      i := i + 1;
    }
    assert decks[..i] == decks;
  }

  lemma CollectDecksNext(p: Ai.PromptConfig, decks: seq<Json>, i: nat)
    requires Ai.AllObjects(decks) && i < |decks|
    ensures Ai.AllObjects(decks[..i]) && decks[i].JObj?
    ensures CollectDecks(p, decks[..i + 1]) == CollectDeck(p, i, CollectDecks(p, decks[..i]), decks[i])
  {
    assert decks[..i + 1][..i] == decks[..i];
    assert decks[i] in decks;
  }

  /** The note loop of `_collect_tasks` for one deck. */
  method CollectDeckTasks(p: Ai.PromptConfig, di: nat, acc: Collected, deck: Json) returns (c: Collected)
    requires deck.JObj?
    ensures c == CollectDeck(p, di, acc, deck)
  {
    var notes := Ai.NotesOf(deck);
    if !notes.JArr? {
      return acc;
    }
    var deckName := TaskSelection.DeckName(deck);
    c := acc.(result := acc.result.(processedDecks := acc.result.processedDecks + 1));
    ghost var start := c;
    var j := 0;
    while j < |notes.items|
      invariant 0 <= j <= |notes.items|
      invariant c == CollectNotes(p, deckName, di, start, notes.items[..j])
    {
      CollectNotesNext(p, deckName, di, start, notes.items, j);
      var r := c.result;
      match Ai.Prepare(notes.items[j], p, true) {
        case NotNote =>
        case MissingKey =>
          c := Collected(r.(processedNotes := r.processedNotes + 1,
                            warnings := r.warnings + [deckName + Ai.MissingKeyWarning]), c.tasks);
        case Ignored =>
          c := Collected(r.(processedNotes := r.processedNotes + 1), c.tasks);
        case Ready(t) =>
          c := Collected(r.(processedNotes := r.processedNotes + 1, promptedNotes := r.promptedNotes + 1),
                         c.tasks + [Task(deckName, di, j, t)]);
      }
      j := j + 1;
    }
    assert notes.items[..j] == notes.items;
  }

  lemma CollectNotesNext(p: Ai.PromptConfig, deckName: string, di: nat, acc: Collected, notes: seq<Json>, j: nat)
    requires j < |notes|
    ensures CollectNotes(p, deckName, di, acc, notes[..j + 1])
         == CollectStep(deckName, di, j, CollectNotes(p, deckName, di, acc, notes[..j]), Ai.Prepare(notes[j], p, true))
  {
    assert notes[..j + 1][..j] == notes[..j];
  }

  // ---------------------------------------------------------------- what collection promises

  /** Decks whose `notes` is a list (a missing one reads as an empty list). */
  function ListDecks(decks: seq<Json>): nat
    decreases |decks|
  {
    if |decks| == 0 then 0
    else ListDecks(decks[..|decks| - 1]) + (if Ai.NotesOf(decks[|decks| - 1]).JArr? then 1 else 0)
  }

  /** Notes the checks accept. */
  function ReadyCount(p: Ai.PromptConfig, notes: seq<Json>): nat
    decreases |notes|
  {
    if |notes| == 0 then 0
    else ReadyCount(p, notes[..|notes| - 1]) + (if Ai.Prepare(notes[|notes| - 1], p, true).Ready? then 1 else 0)
  }

  /** Collection never writes: the change tallies and changed decks stay as
      they were, and the counters only grow. */
  predicate Unwritten(before: Ai.PromptRunResult, after: Ai.PromptRunResult) {
    after.changedFields == before.changedFields && after.changes == before.changes
    && after.changedDecks == before.changedDecks
  }

  /** The note loop counts every dict note, prompts exactly the notes the
      checks accept (one task each), and warns at most once per note. */
  lemma {:induction false} CollectNotesCounts(p: Ai.PromptConfig, deckName: string, di: nat, acc: Collected,
                                              notes: seq<Json>)
    ensures var r := CollectNotes(p, deckName, di, acc, notes);
      Unwritten(acc.result, r.result)
      && r.result.processedDecks == acc.result.processedDecks
      && r.result.processedNotes == acc.result.processedNotes + TaskSelection.ObjectCount(notes)
      && |r.tasks| == |acc.tasks| + ReadyCount(p, notes)
      && r.result.promptedNotes == acc.result.promptedNotes + ReadyCount(p, notes)
      && |r.result.warnings| + ReadyCount(p, notes) <= |acc.result.warnings| + TaskSelection.ObjectCount(notes)
    decreases |notes|
  {
    if |notes| > 0 {
      var n := |notes| - 1;
      CollectNotesCounts(p, deckName, di, acc, notes[..n]);
      var prep := Ai.Prepare(notes[n], p, true);
      assert prep.NotNote? <==> !notes[n].JObj?;
    }
  }

  lemma CollectDeckCounts(p: Ai.PromptConfig, di: nat, acc: Collected, deck: Json)
    requires deck.JObj?
    ensures var r := CollectDeck(p, di, acc, deck);
      var notes := Ai.NotesOf(deck);
      var items := if notes.JArr? then notes.items else [];
      Unwritten(acc.result, r.result)
      && r.result.processedDecks == acc.result.processedDecks + (if notes.JArr? then 1 else 0)
      && r.result.processedNotes == acc.result.processedNotes + TaskSelection.ObjectCount(items)
      && |r.tasks| == |acc.tasks| + ReadyCount(p, items)
      && r.result.promptedNotes == acc.result.promptedNotes + ReadyCount(p, items)
      && |r.result.warnings| + ReadyCount(p, items) <= |acc.result.warnings| + TaskSelection.ObjectCount(items)
  {
    var notes := Ai.NotesOf(deck);
    if notes.JArr? {
      var start := acc.(result := acc.result.(processedDecks := acc.result.processedDecks + 1));
      CollectNotesCounts(p, TaskSelection.DeckName(deck), di, start, notes.items);
    }
  }

  /** `NotesSeen` counts the same notes as the runner's `deck.get("notes", [])`. */
  lemma NotesSeenStep(decks: seq<Json>)
    requires |decks| > 0
    ensures var d := decks[|decks| - 1];
      TaskSelection.NotesSeen(decks)
      == TaskSelection.NotesSeen(decks[..|decks| - 1])
         + TaskSelection.ObjectCount(if Ai.NotesOf(d).JArr? then Ai.NotesOf(d).items else [])
  {
  }

  /** The run's counters after collection: decks with a notes list, dict
      notes across them, one prompted note per task, at most one warning
      per counted note that was not prompted, and nothing written yet. */
  lemma {:induction false} CollectCounts(p: Ai.PromptConfig, decks: seq<Json>)
    requires Ai.AllObjects(decks)
    ensures var c := CollectDecks(p, decks);
      Unwritten(Ai.EmptyResult, c.result)
      && c.result.processedDecks == ListDecks(decks)
      && c.result.processedNotes == TaskSelection.NotesSeen(decks)
      && c.result.promptedNotes == |c.tasks|
      && |c.result.warnings| + |c.tasks| <= c.result.processedNotes
    decreases |decks|
  {
    if |decks| > 0 {
      var n := |decks| - 1;
      assert decks[..n + 1] == decks;
      CollectDecksNext(p, decks, n);
      CollectCounts(p, decks[..n]);
      var before := CollectDecks(p, decks[..n]);
      CollectDeckCounts(p, n, before, decks[n]);
      NotesSeenStep(decks);
      var d := decks[n];
      var items := if Ai.NotesOf(d).JArr? then Ai.NotesOf(d).items else [];
      assert ListDecks(decks) == ListDecks(decks[..n]) + (if Ai.NotesOf(d).JArr? then 1 else 0);
      assert CollectDecks(p, decks) == CollectDeck(p, n, before, d);
    }
  }

  /** A task of deck `di` that comes from the note at its index, which the
      checks accepted with exactly this task. */
  predicate PlacedIn(p: Ai.PromptConfig, deckName: string, di: nat, notes: seq<Json>, k: Task) {
    k.deckIndex == di && k.deckName == deckName && k.noteIndex < |notes|
    && Ai.Prepare(notes[k.noteIndex], p, true) == Ai.Ready(k.task)
  }

  /** The note loop appends its tasks after the ones already collected,
      each from the note it names, in note order. */
  lemma {:induction false} CollectNotesPlaced(p: Ai.PromptConfig, deckName: string, di: nat, acc: Collected,
                                              notes: seq<Json>)
    ensures var r := CollectNotes(p, deckName, di, acc, notes);
      |acc.tasks| <= |r.tasks| && r.tasks[..|acc.tasks|] == acc.tasks
      && (forall j :: |acc.tasks| <= j < |r.tasks| ==> PlacedIn(p, deckName, di, notes, r.tasks[j]))
      && (forall i, j :: |acc.tasks| <= i < j < |r.tasks| ==> r.tasks[i].noteIndex < r.tasks[j].noteIndex)
    decreases |notes|
  {
    if |notes| > 0 {
      var n := |notes| - 1;
      var before := CollectNotes(p, deckName, di, acc, notes[..n]);
      CollectNotesPlaced(p, deckName, di, acc, notes[..n]);
      var r := CollectNotes(p, deckName, di, acc, notes);
      assert r == CollectStep(deckName, di, n, before, Ai.Prepare(notes[n], p, true));
      forall j | |acc.tasks| <= j < |before.tasks|
        ensures PlacedIn(p, deckName, di, notes, before.tasks[j])
      {
        assert PlacedIn(p, deckName, di, notes[..n], before.tasks[j]);
        assert notes[..n][before.tasks[j].noteIndex] == notes[before.tasks[j].noteIndex];
      }
      if |r.tasks| > |before.tasks| {
        assert r.tasks == before.tasks + [r.tasks[|before.tasks|]];
        assert r.tasks[..|acc.tasks|] == before.tasks[..|acc.tasks|];
      } else {
        assert r.tasks == before.tasks;
      }
    }
  }

  /** A task whose position names a note of the decks, which the checks
      accepted with exactly this task. */
  predicate Placed(p: Ai.PromptConfig, decks: seq<Json>, k: Task) {
    k.deckIndex < |decks| && Ai.NotesOf(decks[k.deckIndex]).JArr?
    && k.deckName == TaskSelection.DeckName(decks[k.deckIndex])
    && PlacedIn(p, k.deckName, k.deckIndex, Ai.NotesOf(decks[k.deckIndex]).items, k)
  }

  /** Task `a` comes before task `b` in deck order, then note order. */
  predicate Before(a: Task, b: Task) {
    a.deckIndex < b.deckIndex || (a.deckIndex == b.deckIndex && a.noteIndex < b.noteIndex)
  }

  lemma CollectDeckPlaced(p: Ai.PromptConfig, di: nat, acc: Collected, deck: Json)
    requires deck.JObj?
    ensures var r := CollectDeck(p, di, acc, deck);
      var notes := Ai.NotesOf(deck);
      |acc.tasks| <= |r.tasks| && r.tasks[..|acc.tasks|] == acc.tasks
      && (|r.tasks| > |acc.tasks| ==> notes.JArr?)
      && (forall j :: |acc.tasks| <= j < |r.tasks| ==>
            notes.JArr? && PlacedIn(p, TaskSelection.DeckName(deck), di, notes.items, r.tasks[j]))
      && (forall i, j :: |acc.tasks| <= i < j < |r.tasks| ==> Before(r.tasks[i], r.tasks[j]))
  {
    var notes := Ai.NotesOf(deck);
    if notes.JArr? {
      var start := acc.(result := acc.result.(processedDecks := acc.result.processedDecks + 1));
      CollectNotesPlaced(p, TaskSelection.DeckName(deck), di, start, notes.items);
    }
  }

  predicate AllPlaced(p: Ai.PromptConfig, decks: seq<Json>, tasks: seq<Task>) {
    forall j :: 0 <= j < |tasks| ==> Placed(p, decks, tasks[j])
  }

  predicate InOrder(tasks: seq<Task>) {
    forall i, j :: 0 <= i < j < |tasks| ==> Before(tasks[i], tasks[j])
  }

  /** A task placed in a prefix of the decks is placed in the decks. */
  lemma PlacedPrefix(p: Ai.PromptConfig, decks: seq<Json>, n: nat, k: Task)
    requires n <= |decks| && Placed(p, decks[..n], k)
    ensures Placed(p, decks, k) && k.deckIndex < n
  {
    assert decks[..n][k.deckIndex] == decks[k.deckIndex];
  }

  /** The tasks of the last deck, appended to those of the decks before
      it. */
  lemma PlacedStep(p: Ai.PromptConfig, decks: seq<Json>)
    requires Ai.AllObjects(decks) && |decks| > 0
    requires AllPlaced(p, decks[..|decks| - 1], CollectDecks(p, decks[..|decks| - 1]).tasks)
    requires InOrder(CollectDecks(p, decks[..|decks| - 1]).tasks)
    ensures AllPlaced(p, decks, CollectDecks(p, decks).tasks) && InOrder(CollectDecks(p, decks).tasks)
  {
    var n := |decks| - 1;
    assert decks[..n + 1] == decks;
    CollectDecksNext(p, decks, n);
    var before := CollectDecks(p, decks[..n]);
    var c := CollectDecks(p, decks);
    CollectDeckPlaced(p, n, before, decks[n]);
    var m := |before.tasks|;
    forall j | 0 <= j < m
      ensures c.tasks[j] == before.tasks[j]
    {
      assert c.tasks[..m][j] == c.tasks[j];
    }
    forall j | 0 <= j < |c.tasks|
      ensures Placed(p, decks, c.tasks[j]) && (j < m ==> c.tasks[j].deckIndex < n) && (j >= m ==> c.tasks[j].deckIndex == n)
    {
      if j < m {
        PlacedPrefix(p, decks, n, before.tasks[j]);
      }
    }
  }

  /** Every task names the note it came from, and the tasks come in deck
      order, then note order: no two tasks share a note, so writing a
      task's fields never disturbs another task's note. */
  lemma {:induction false} CollectPlaced(p: Ai.PromptConfig, decks: seq<Json>)
    requires Ai.AllObjects(decks)
    ensures AllPlaced(p, decks, CollectDecks(p, decks).tasks)
    ensures InOrder(CollectDecks(p, decks).tasks)
    decreases |decks|
  {
    if |decks| > 0 {
      var n := |decks| - 1;
      CollectDecksNext(p, decks, n);
      CollectPlaced(p, decks[..n]);
      PlacedStep(p, decks);
    }
  }

  /** The tasks are exactly the notes the checks accept: as many tasks as
      accepted notes, each at its own note, no two at the same note. */
  lemma CollectedAreAccepted(p: Ai.PromptConfig, decks: seq<Json>)
    requires Ai.AllObjects(decks)
    ensures var c := CollectDecks(p, decks);
      |c.tasks| == AcceptedNotes(p, decks) && AllPlaced(p, decks, c.tasks) && InOrder(c.tasks)
  {
    CollectPlaced(p, decks);
    CollectTaskCount(p, decks);
  }

  /** Accepted notes across the decks that have a notes list. */
  function AcceptedNotes(p: Ai.PromptConfig, decks: seq<Json>): nat
    decreases |decks|
  {
    if |decks| == 0 then 0
    else
      var d := decks[|decks| - 1];
      AcceptedNotes(p, decks[..|decks| - 1]) + (if Ai.NotesOf(d).JArr? then ReadyCount(p, Ai.NotesOf(d).items) else 0)
  }

  lemma {:induction false} CollectTaskCount(p: Ai.PromptConfig, decks: seq<Json>)
    requires Ai.AllObjects(decks)
    ensures |CollectDecks(p, decks).tasks| == AcceptedNotes(p, decks)
    decreases |decks|
  {
    if |decks| > 0 {
      var n := |decks| - 1;
      assert decks[..n + 1] == decks;
      CollectDecksNext(p, decks, n);
      CollectTaskCount(p, decks[..n]);
      CollectDeckCounts(p, n, CollectDecks(p, decks[..n]), decks[n]);
    }
  }

  // ---------------------------------------------------------------- sent fields

  /** A prompted note's sent fields are the string fields the send
      patterns match, then each target not among them. */
  lemma PrepareSend(note: Json, p: Ai.PromptConfig)
    requires Ai.Prepare(note, p, true).Ready?
    ensures var t := Ai.Prepare(note, p, true).task;
      var names := Seqs.Firsts(t.stringFields);
      t.targets == Glob.SelectNames(names, p.targetFields)
      && t.send == TaskSelection.MergeFrom(Glob.SelectNames(names, p.sendFields), t.targets)
  {
    var k := GetStr(note, "note_key").value;
    assert Ai.Prepare(note, p, true) == Ai.PrepareTyped(note, p, Text.Strip(k));
  }

  /** Each field name of a dict appears once. */
  predicate DistinctNames(fields: seq<(string, Json)>) {
    TaskSelection.NoDuplicates(Seqs.Firsts(fields))
  }

  /** The string-valued fields keep the order of the fields dict. */
  lemma {:induction false} StringFieldsNames(fields: seq<(string, Json)>)
    ensures Glob.IsSubsequence(Seqs.Firsts(TaskSelection.StringFields(fields)), Seqs.Firsts(fields))
    decreases |fields|
  {
    if |fields| > 0 {
      StringFieldsNames(fields[1..]);
      var rest := Seqs.Firsts(TaskSelection.StringFields(fields[1..]));
      var all := Seqs.Firsts(fields);
      assert all[1..] == Seqs.Firsts(fields[1..]);
      if fields[0].1.JStr? {
        var mine := Seqs.Firsts(TaskSelection.StringFields(fields));
        assert TaskSelection.StringFields(fields)
            == [(fields[0].0, fields[0].1.s)] + TaskSelection.StringFields(fields[1..]);
        assert mine[0] == all[0] && mine[1..] == rest;
      } else {
        assert TaskSelection.StringFields(fields) == TaskSelection.StringFields(fields[1..]);
        TaskSelection.SubsequenceSkip(rest, all);
      }
    }
  }

  lemma {:induction false} SubsequenceIn<T>(a: seq<T>, b: seq<T>, x: T)
    requires Glob.IsSubsequence(a, b) && x in a
    ensures x in b
    decreases |b|
  {
    assert |b| > 0;
    if a[0] == b[0] && Glob.IsSubsequence(a[1..], b[1..]) {
      if x != a[0] {
        Seqs.InHeadOrTail(a, x);
        SubsequenceIn(a[1..], b[1..], x);
      }
    } else {
      SubsequenceIn(a, b[1..], x);
    }
  }

  /** A subsequence of a list without duplicates has none. */
  lemma {:induction false} SubsequenceNoDuplicates(a: seq<string>, b: seq<string>)
    requires Glob.IsSubsequence(a, b) && TaskSelection.NoDuplicates(b)
    ensures TaskSelection.NoDuplicates(a)
    decreases |b|
  {
    if |a| > 0 {
      assert |b| > 0;
      assert TaskSelection.NoDuplicates(b[1..]) by {
        forall i, j | 0 <= i < j < |b[1..]| ensures b[1..][i] != b[1..][j] {
          assert b[1..][i] == b[i + 1] && b[1..][j] == b[j + 1];
        }
      }
      if a[0] == b[0] && Glob.IsSubsequence(a[1..], b[1..]) {
        SubsequenceNoDuplicates(a[1..], b[1..]);
        forall j | 1 <= j < |a| ensures a[0] != a[j] {
          assert a[j] == a[1..][j - 1];
          SubsequenceIn(a[1..], b[1..], a[j]);
          var k :| 0 <= k < |b[1..]| && b[1..][k] == a[j];
          assert b[k + 1] == a[j];
        }
      } else {
        SubsequenceNoDuplicates(a, b[1..]);
      }
    }
  }

  /** When the note's field names are distinct, as a dict's are, no field
      is sent twice. */
  lemma SendNoDuplicates(note: Json, p: Ai.PromptConfig)
    requires Ai.Prepare(note, p, true).Ready?
    requires DistinctNames(Ai.Prepare(note, p, true).task.fields)
    ensures TaskSelection.NoDuplicates(Ai.Prepare(note, p, true).task.send)
  {
    var t := Ai.Prepare(note, p, true).task;
    Ai.PrepareTask(note, p, true);
    PrepareSend(note, p);
    var names := Seqs.Firsts(t.stringFields);
    StringFieldsNames(t.fields);
    SubsequenceNoDuplicates(names, Seqs.Firsts(t.fields));
    Glob.SelectNamesSubsequence(names, p.sendFields);
    SubsequenceNoDuplicates(Glob.SelectNames(names, p.sendFields), names);
    TaskSelection.MergeNoDuplicates(Glob.SelectNames(names, p.sendFields), t.targets);
  }

  // ---------------------------------------------------------------- dispatch

  /** A value of the dict the editor returns: an `InlineEditedNote`,
      `None`, or anything else. */
  datatype EditedValue = EditedNote(noteKey: string, fields: seq<(string, Json)>) | NoneValue | OtherValue

  /** Edited notes keyed by note key. */
  type Entries = seq<(string, EditedValue)>

  /** What `editor.edit_notes` did with a chunk's payloads: raised, returned
      something that is not a dict, or returned a dict. */
  datatype ChunkAnswer = ChunkRaised(message: string) | NotKeyed | Keyed(entries: Entries)

  const NotKeyedMessage: string := "response is not a JSON object keyed by note_key"

  /** The payloads of a chunk, in task order. */
  function Payloads(chunk: seq<Task>): seq<Ai.NotePayload> {
    seq(|chunk|, i requires 0 <= i < |chunk| => Ai.PayloadOf(chunk[i].task))
  }

  /** `run_chunk`: the edited notes, or the chunk's error text. */
  function ChunkOutcome(a: ChunkAnswer): Result<Entries> {
    match a
    case ChunkRaised(message) => Err(message)
    case NotKeyed => Err(NotKeyedMessage)
    case Keyed(entries) => Ok(entries)
  }

  /** `_dispatch_chunks`, with the editor as a function of a chunk's
      payloads: one outcome per chunk, sorted back into chunk order. */
  function Dispatch(editor: seq<Ai.NotePayload> -> ChunkAnswer, chunks: seq<seq<Task>>): (r: seq<Result<Entries>>)
    ensures |r| == |chunks|
  {
    seq(|chunks|, i requires 0 <= i < |chunks| => ChunkOutcome(editor(Payloads(chunks[i]))))
  }

  // ---------------------------------------------------------------- applying answers

  const MissingMessage: string := "response missing note_key"
  const InvalidMessage: string := "response is not a valid edited note"
  const MismatchMessage: string := "response note_key mismatch"
  const FieldsInvalidPrefix: string := "response fields invalid: "

  /** `edited_by_note_key.get(key)`. */
  function FindEdited(entries: Entries, key: string): Option<EditedValue>
    decreases |entries|
  {
    if |entries| == 0 then None
    else if entries[0].0 == key then Some(entries[0].1)
    else FindEdited(entries[1..], key)
  }

  /** `_validate_edited_note`: the edited fields, or the error text. */
  function ValidateEditedNote(t: Ai.NoteTask, v: EditedValue): Result<seq<(string, Json)>> {
    if !v.EditedNote? then Err(InvalidMessage)
    else if v.noteKey != t.noteKey then Err(MismatchMessage)
    else
      var bad := Ai.BadFields(t.send, v.fields);
      if |bad| > 0 then Err(FieldsInvalidPrefix + Text.Join(bad, ", ")) else Ok(v.fields)
  }

  /** What the loop of `_apply_chunk_results` makes of a task's answer: the
      edited fields to apply, or the text of its warning. */
  function Verdict(k: Task, reply: Result<Entries>): Result<seq<(string, Json)>> {
    match reply
    case Err(e) => Err(e)
    case Ok(entries) =>
      match FindEdited(entries, k.task.noteKey)
      case None => Err(MissingMessage)
      case Some(NoneValue) => Err(MissingMessage)
      case Some(v) => ValidateEditedNote(k.task, v)
  }

  /** The result being filled, the working decks, and the indices of the
      decks some change was written to. */
  datatype Working = Working(result: Ai.PromptRunResult, decks: seq<Json>, changed: set<nat>)

  /** `{deck_name}/{note_key}: {message}` appended to the warnings. */
  function Warn(w: Working, k: Task, message: string): Working {
    w.(result := w.result.(warnings := w.result.warnings + [k.deckName + "/" + k.task.noteKey + ": " + message]))
  }

  /** The note at `(di, ni)` of the working decks with its fields dict
      replaced; the decks as they were when there is no such note. */
  function WriteNote(decks: seq<Json>, di: nat, ni: nat, fields: seq<(string, Json)>): seq<Json> {
    if di < |decks| && decks[di].JObj? && Ai.NotesOf(decks[di]).JArr? && ni < |Ai.NotesOf(decks[di]).items|
       && Ai.NotesOf(decks[di]).items[ni].JObj?
    then
      var items := Ai.NotesOf(decks[di]).items;
      var note := Ai.WithMember(items[ni], "fields", JObj(fields));
      decks[di := Ai.WithMember(decks[di], "notes", JArr(items[ni := note]))]
    else decks
  }

  /** The changes an accepted answer makes to a task's note. */
  function ChangesOf(p: Ai.PromptConfig, k: Task, fields: seq<(string, Json)>): seq<Ai.PromptChange> {
    Ai.ChangesOver(p.name, k.deckName, k.task, fields, k.task.targets)
  }

  /** `_apply_note_changes` on an accepted answer, and the deck recorded
      when it wrote something. The task's note still holds the fields it
      was collected with, since no other task names the same note. */
  function Accept(p: Ai.PromptConfig, w: Working, k: Task, fields: seq<(string, Json)>): Working {
    var changes := ChangesOf(p, k, fields);
    if |changes| == 0 then w
    else
      Working(w.result.(changedFields := w.result.changedFields + |changes|, changes := w.result.changes + changes),
              WriteNote(w.decks, k.deckIndex, k.noteIndex, Ai.Written(k.task.fields, changes)),
              w.changed + {k.deckIndex})
  }

  /** One pass of the task loop of `_apply_chunk_results`. */
  function TaskStep(p: Ai.PromptConfig, w: Working, k: Task, reply: Result<Entries>): Working {
    match Verdict(k, reply)
    case Err(e) => Warn(w, k, e)
    case Ok(fields) => Accept(p, w, k, fields)
  }

  /** The task loop over one chunk. */
  function ApplyChunk(p: Ai.PromptConfig, w: Working, chunk: seq<Task>, reply: Result<Entries>): Working
    decreases |chunk|
  {
    if |chunk| == 0 then w
    else
      var n := |chunk| - 1;
      TaskStep(p, ApplyChunk(p, w, chunk[..n], reply), chunk[n], reply)
  }

  /** `_apply_chunk_results`: the chunks in order, each with its outcome. */
  function ApplyChunks(p: Ai.PromptConfig, w: Working, chunks: seq<seq<Task>>, replies: seq<Result<Entries>>): Working
    requires |replies| == |chunks|
    decreases |chunks|
  {
    if |chunks| == 0 then w
    else
      var n := |chunks| - 1;
      ApplyChunk(p, ApplyChunks(p, w, chunks[..n], replies[..n]), chunks[n], replies[n])
  }

  /** The working decks whose index was recorded, in working order. */
  function ChangedDecks(decks: seq<Json>, changed: set<nat>): seq<Json>
    decreases |decks|
  {
    if |decks| == 0 then []
    else
      var n := |decks| - 1;
      ChangedDecks(decks[..n], changed) + (if n in changed then [decks[n]] else [])
  }

  /** `PromptRunner.run_async`, on values: the input is left as it was and
      the edited decks come back in the result. */
  function RunSpec(data: Json, p: Ai.PromptConfig, o: Options, editor: seq<Ai.NotePayload> -> ChunkAnswer)
    : Result<Ai.PromptRunResult>
    requires Ai.DecksAreObjects(data)
  {
    match ValidateOptions(o)
    case Some(message) => Err(message)
    case None =>
      match Get(data, "decks")
      case Some(JArr(decks)) =>
        var working := Ai.SelectDecksWithSubdecks(decks, o.includeDecks);
        var c := CollectDecks(p, working);
        if |c.tasks| == 0 then Ok(c.result)
        else
          var chunks := Chunking.Chunks(c.tasks, o.batchSize);
          var w := ApplyChunks(p, Working(c.result, working, {}), chunks, Dispatch(editor, chunks));
          Ok(w.result.(changedDecks := w.result.changedDecks + ChangedDecks(w.decks, w.changed)))
      case _ => Err(Ai.DecksMessage)
  }

  // ---------------------------------------------------------------- the apply loops

  /** `_apply_note_changes`: the loop over the target fields writes each
      changed text into the task's note and records it as a change; it
      says whether anything was written. */
  method ApplyNoteChanges(p: Ai.PromptConfig, w: Working, k: Task, fields: seq<(string, Json)>)
    returns (r: Working, changedAny: bool)
    ensures changedAny <==> |ChangesOf(p, k, fields)| > 0
    ensures r == Accept(p, w, k, fields).(changed := w.changed)
  {
    var result, changes, written := Ai.WriteTargets(p, k.deckName, k.task, fields, w.result);
    changedAny := |changes| > 0;
    if changedAny {
      r := Working(result, WriteNote(w.decks, k.deckIndex, k.noteIndex, written), w.changed);
    } else {
      assert w.result.changes + changes == w.result.changes;
      r := w;
    }
  }

  /** One pass of the task loop of `_apply_chunk_results` on a chunk that
      came back as a dict. */
  method ApplyTask(p: Ai.PromptConfig, w: Working, k: Task, entries: Entries) returns (r: Working)
    ensures r == TaskStep(p, w, k, Ok(entries))
  {
    var edited := FindEdited(entries, k.task.noteKey);
    if edited.None? || edited.value.NoneValue? {
      return Warn(w, k, MissingMessage);
    }
    var verdict := ValidateEditedNote(k.task, edited.value);
    if verdict.Err? {
      return Warn(w, k, verdict.error);
    }
    var changedAny;
    r, changedAny := ApplyNoteChanges(p, w, k, verdict.value);
    if changedAny {
      r := r.(changed := r.changed + {k.deckIndex});
    }
  }

  lemma ApplyChunkNext(p: Ai.PromptConfig, w: Working, chunk: seq<Task>, reply: Result<Entries>, j: nat)
    requires j < |chunk|
    ensures ApplyChunk(p, w, chunk[..j + 1], reply) == TaskStep(p, ApplyChunk(p, w, chunk[..j], reply), chunk[j], reply)
  {
    assert chunk[..j + 1][..j] == chunk[..j];
  }

  /** The task loops of `_apply_chunk_results` for one chunk: a chunk
      that failed warns about each of its tasks; otherwise each task's
      edited note is looked up, validated and applied. */
  method ApplyChunkResult(p: Ai.PromptConfig, w: Working, chunk: seq<Task>, reply: Result<Entries>) returns (r: Working)
    ensures r == ApplyChunk(p, w, chunk, reply)
  {
    r := w;
    var j := 0;
    if reply.Err? {
      while j < |chunk|
        invariant 0 <= j <= |chunk|
        invariant r == ApplyChunk(p, w, chunk[..j], reply)
      {
        ApplyChunkNext(p, w, chunk, reply, j);
        r := Warn(r, chunk[j], reply.error);
        j := j + 1;
      }
    } else {
      while j < |chunk|
        invariant 0 <= j <= |chunk|
        invariant r == ApplyChunk(p, w, chunk[..j], reply)
      {
        ApplyChunkNext(p, w, chunk, reply, j);
        r := ApplyTask(p, r, chunk[j], reply.value);
        j := j + 1;
      }
    }
    assert chunk[..j] == chunk;
  }

  lemma ApplyChunksNext(p: Ai.PromptConfig, w: Working, chunks: seq<seq<Task>>, replies: seq<Result<Entries>>, i: nat)
    requires |replies| == |chunks| && i < |chunks|
    ensures ApplyChunks(p, w, chunks[..i + 1], replies[..i + 1])
         == ApplyChunk(p, ApplyChunks(p, w, chunks[..i], replies[..i]), chunks[i], replies[i])
  {
    assert chunks[..i + 1][..i] == chunks[..i];
    assert replies[..i + 1][..i] == replies[..i];
  }

  /** The chunk loop of `_apply_chunk_results`, in chunk order. */
  method ApplyChunkResults(p: Ai.PromptConfig, w: Working, chunks: seq<seq<Task>>, replies: seq<Result<Entries>>)
    returns (r: Working)
    requires |replies| == |chunks|
    ensures r == ApplyChunks(p, w, chunks, replies)
  {
    r := w;
    var i := 0;
    while i < |chunks|
      invariant 0 <= i <= |chunks|
      invariant r == ApplyChunks(p, w, chunks[..i], replies[..i])
    {
      ApplyChunksNext(p, w, chunks, replies, i);
      r := ApplyChunkResult(p, r, chunks[i], replies[i]);
      i := i + 1;
    }
    assert chunks[..i] == chunks && replies[..i] == replies;
  }

  /** The loop that appends the changed working decks to the result. */
  method AppendChangedDecks(result: Ai.PromptRunResult, decks: seq<Json>, changed: set<nat>)
    returns (r: Ai.PromptRunResult)
    ensures r == result.(changedDecks := result.changedDecks + ChangedDecks(decks, changed))
  {
    r := result;
    var i := 0;
    assert decks[..0] == [];
    while i < |decks|
      invariant 0 <= i <= |decks|
      invariant r == result.(changedDecks := result.changedDecks + ChangedDecks(decks[..i], changed))
    {
      assert decks[..i + 1][..i] == decks[..i];
      if i in changed {
        Seqs.AppendAssoc(result.changedDecks, ChangedDecks(decks[..i], changed), [decks[i]]);
        r := r.(changedDecks := r.changedDecks + [decks[i]]);
      } else {
        assert ChangedDecks(decks[..i], changed) + [] == ChangedDecks(decks[..i], changed);
      }
      i := i + 1;
    }
    assert decks[..i] == decks;
  }

  /** `PromptRunner.run_async`: the editor is called once per chunk, and
      the answers are applied in chunk order. */
  method Run(data: Json, p: Ai.PromptConfig, o: Options, editor: seq<Ai.NotePayload> -> ChunkAnswer)
    returns (r: Result<Ai.PromptRunResult>)
    requires Ai.DecksAreObjects(data)
    ensures r == RunSpec(data, p, o, editor)
  {
    var invalid := ValidateOptions(o);
    if invalid.Some? {
      return Err(invalid.value);
    }
    var decks := Get(data, "decks");
    if decks.None? || !decks.value.JArr? {
      return Err(Ai.DecksMessage);
    }
    var working := Ai.SelectDecksWithSubdecks(decks.value.items, o.includeDecks);
    var c := CollectTasks(p, working);
    if |c.tasks| == 0 {
      return Ok(c.result);
    }
    var chunks := Chunking.Chunks(c.tasks, o.batchSize);
    var w := ApplyChunkResults(p, Working(c.result, working, {}), chunks, Dispatch(editor, chunks));
    var result := AppendChangedDecks(w.result, w.decks, w.changed);
    return Ok(result);
  }

  // ---------------------------------------------------------------- what a run promises

  /** The options are checked before anything else: a bad batch size is
      reported first, then a bad number of chunks in flight, then a
      missing decks list; nothing else makes the run fail. */
  lemma OptionsCheckedFirst(data: Json, p: Ai.PromptConfig, o: Options, editor: seq<Ai.NotePayload> -> ChunkAnswer)
    requires Ai.DecksAreObjects(data)
    ensures o.batchSize <= 0 ==> RunSpec(data, p, o, editor) == Err(BatchSizeMessage)
    ensures o.batchSize > 0 && o.maxInFlight <= 0 ==> RunSpec(data, p, o, editor) == Err(MaxInFlightMessage)
    ensures o.batchSize > 0 && o.maxInFlight > 0 ==>
      (RunSpec(data, p, o, editor).Err? <==> !(Get(data, "decks").Some? && Get(data, "decks").value.JArr?))
    ensures o.batchSize > 0 && o.maxInFlight > 0 && RunSpec(data, p, o, editor).Err? ==>
      RunSpec(data, p, o, editor).error == Ai.DecksMessage
  {
  }

  /** A task's answer is applied exactly when its chunk came back as a
      dict holding, under the task's key, an edited note with that same
      key and a string for every sent field; the key is looked up before
      the note is validated, and the key before the fields. */
  lemma VerdictAccepts(k: Task, reply: Result<Entries>)
    ensures Verdict(k, reply).Ok? <==>
      reply.Ok? && FindEdited(reply.value, k.task.noteKey).Some?
      && FindEdited(reply.value, k.task.noteKey).value.EditedNote?
      && FindEdited(reply.value, k.task.noteKey).value.noteKey == k.task.noteKey
      && forall f :: f in k.task.send ==> Ai.IsStr(Lookup(FindEdited(reply.value, k.task.noteKey).value.fields, f))
    ensures Verdict(k, reply).Ok? ==> Verdict(k, reply).value == FindEdited(reply.value, k.task.noteKey).value.fields
    ensures reply.Err? ==> Verdict(k, reply) == Err(reply.error)
    ensures reply.Ok? && (FindEdited(reply.value, k.task.noteKey).None?
                          || FindEdited(reply.value, k.task.noteKey) == Some(NoneValue)) ==>
      Verdict(k, reply) == Err(MissingMessage)
    ensures reply.Ok? && FindEdited(reply.value, k.task.noteKey) == Some(OtherValue) ==>
      Verdict(k, reply) == Err(InvalidMessage)
    ensures (reply.Ok? && FindEdited(reply.value, k.task.noteKey).Some?
             && FindEdited(reply.value, k.task.noteKey).value.EditedNote?
             && FindEdited(reply.value, k.task.noteKey).value.noteKey != k.task.noteKey) ==>
      Verdict(k, reply) == Err(MismatchMessage)
  {
    if reply.Ok? && FindEdited(reply.value, k.task.noteKey).Some? {
      var v := FindEdited(reply.value, k.task.noteKey).value;
      if v.EditedNote? && v.noteKey == k.task.noteKey {
        var bad := Ai.BadFields(k.task.send, v.fields);
        if |bad| > 0 {
          assert bad[0] in bad;
        }
      }
    }
  }

  /** The warnings a failed chunk adds: one per task, in task order. */
  function ChunkWarnings(chunk: seq<Task>, e: string): (r: seq<string>)
    ensures |r| == |chunk|
  {
    seq(|chunk|, i requires 0 <= i < |chunk| => chunk[i].deckName + "/" + chunk[i].task.noteKey + ": " + e)
  }

  /** A chunk whose call failed adds one warning per task, naming the
      task's deck and key and the error, and changes nothing else. */
  lemma {:induction false} ErroredChunk(p: Ai.PromptConfig, w: Working, chunk: seq<Task>, e: string)
    ensures ApplyChunk(p, w, chunk, Err(e))
         == w.(result := w.result.(warnings := w.result.warnings + ChunkWarnings(chunk, e)))
    decreases |chunk|
  {
    if |chunk| == 0 {
      assert w.result.warnings + ChunkWarnings(chunk, e) == w.result.warnings;
    } else {
      var n := |chunk| - 1;
      ErroredChunk(p, w, chunk[..n], e);
      assert ChunkWarnings(chunk, e) == ChunkWarnings(chunk[..n], e) + [ChunkWarnings(chunk, e)[n]];
      Seqs.AppendAssoc(w.result.warnings, ChunkWarnings(chunk[..n], e), [ChunkWarnings(chunk, e)[n]]);
    }
  }

  /** One task: a refused answer adds exactly one warning and changes
      nothing else; an accepted one adds no warning, writes exactly the
      changes of its targets, and records its deck exactly when it wrote
      something. */
  lemma TaskStepMeans(p: Ai.PromptConfig, w: Working, k: Task, reply: Result<Entries>)
    ensures var r := TaskStep(p, w, k, reply);
      var v := Verdict(k, reply);
      (v.Err? ==>
         r.decks == w.decks && r.changed == w.changed
         && r.result == w.result.(warnings := w.result.warnings + [k.deckName + "/" + k.task.noteKey + ": " + v.error]))
      && (v.Ok? ==>
         r.result.warnings == w.result.warnings
         && r.result.changes == w.result.changes + ChangesOf(p, k, v.value)
         && r.result.changedFields == w.result.changedFields + |ChangesOf(p, k, v.value)|
         && r.changed == w.changed + (if |ChangesOf(p, k, v.value)| > 0 then {k.deckIndex} else {}))
  {
    var v := Verdict(k, reply);
    if v.Ok? && |ChangesOf(p, k, v.value)| == 0 {
      assert w.result.changes + ChangesOf(p, k, v.value) == w.result.changes;
    }
  }

  /** Writing a note's fields replaces that note's fields dict and touches
      no other deck, no other note and no other member. */
  lemma WriteNoteMeans(decks: seq<Json>, di: nat, ni: nat, fields: seq<(string, Json)>)
    requires di < |decks| && decks[di].JObj? && Ai.NotesOf(decks[di]).JArr?
    requires ni < |Ai.NotesOf(decks[di]).items| && Ai.NotesOf(decks[di]).items[ni].JObj?
    ensures var r := WriteNote(decks, di, ni, fields);
      var before := Ai.NotesOf(decks[di]).items;
      |r| == |decks| && (forall i :: 0 <= i < |decks| && i != di ==> r[i] == decks[i])
      && r[di].JObj? && (forall m :: m != "notes" ==> Get(r[di], m) == Get(decks[di], m))
      && Ai.NotesOf(r[di]).JArr? && |Ai.NotesOf(r[di]).items| == |before|
      && (forall j :: 0 <= j < |before| && j != ni ==> Ai.NotesOf(r[di]).items[j] == before[j])
      && Ai.NotesOf(r[di]).items[ni].JObj?
      && Get(Ai.NotesOf(r[di]).items[ni], "fields") == Some(JObj(fields))
      && (forall m :: m != "fields" ==> Get(Ai.NotesOf(r[di]).items[ni], m) == Get(before[ni], m))
  {
  }

  /** A task whose answer was accepted and that the collection placed at
      its note: the working decks keep their shape, and that note's fields
      dict holds each changed text while every other field keeps its
      value. */
  lemma AcceptWrites(p: Ai.PromptConfig, w: Working, k: Task, fields: seq<(string, Json)>)
    requires Placed(p, w.decks, k)
    ensures var r := Accept(p, w, k, fields);
      var changes := ChangesOf(p, k, fields);
      var note := Ai.NotesOf(r.decks[k.deckIndex]).items[k.noteIndex];
      |r.decks| == |w.decks|
      && (|changes| == 0 ==> r.decks == w.decks)
      && (|changes| > 0 ==>
            Ai.NotesOf(r.decks[k.deckIndex]).JArr? && k.noteIndex < |Ai.NotesOf(r.decks[k.deckIndex]).items|
            && Get(note, "fields") == Some(JObj(Ai.Written(k.task.fields, changes)))
            && (forall c :: c in changes ==> Lookup(Ai.Written(k.task.fields, changes), c.fieldName) == Some(JStr(c.editedText)))
            && (forall g :: (forall c :: c in changes ==> c.fieldName != g) ==>
                  Lookup(Ai.Written(k.task.fields, changes), g) == Lookup(k.task.fields, g)))
  {
    var changes := ChangesOf(p, k, fields);
    if |changes| > 0 {
      var notes := Ai.NotesOf(w.decks[k.deckIndex]).items;
      assert Ai.Prepare(notes[k.noteIndex], p, true).Ready?;
      assert notes[k.noteIndex].JObj?;
      WriteNoteMeans(w.decks, k.deckIndex, k.noteIndex, Ai.Written(k.task.fields, changes));
      Ai.WrittenMeans(k.task.fields, changes, fields);
    }
  }

  /** The working decks whose index was recorded keep their order, and
      every recorded deck is reported. */
  lemma {:induction false} ChangedDecksMeans(decks: seq<Json>, changed: set<nat>)
    ensures Glob.IsSubsequence(ChangedDecks(decks, changed), decks)
    ensures forall i :: 0 <= i < |decks| && i in changed ==> decks[i] in ChangedDecks(decks, changed)
    ensures forall x :: x in ChangedDecks(decks, changed) ==> exists i :: 0 <= i < |decks| && i in changed && decks[i] == x
    decreases |decks|
  {
    if |decks| > 0 {
      var n := |decks| - 1;
      var before := ChangedDecks(decks[..n], changed);
      ChangedDecksMeans(decks[..n], changed);
      assert decks == decks[..n] + [decks[n]];
      forall i | 0 <= i < n ensures decks[..n][i] == decks[i] { }
      if n in changed {
        SubsequenceSnoc(before, decks[..n], decks[n]);
      } else {
        SubsequenceExtend(before, decks[..n], decks[n]);
        assert ChangedDecks(decks, changed) == before;
      }
    }
  }

  lemma {:induction false} SubsequenceExtend<T>(a: seq<T>, b: seq<T>, x: T)
    requires Glob.IsSubsequence(a, b)
    ensures Glob.IsSubsequence(a, b + [x])
    decreases |b|
  {
    if |a| > 0 {
      assert (b + [x])[0] == b[0] && (b + [x])[1..] == b[1..] + [x];
      if a[0] == b[0] && Glob.IsSubsequence(a[1..], b[1..]) {
        SubsequenceExtend(a[1..], b[1..], x);
      } else {
        SubsequenceExtend(a, b[1..], x);
      }
    }
  }

  lemma {:induction false} SubsequenceSnoc<T>(a: seq<T>, b: seq<T>, x: T)
    requires Glob.IsSubsequence(a, b)
    ensures Glob.IsSubsequence(a + [x], b + [x])
    decreases |b|
  {
    if |b| == 0 {
      assert a == [];
      assert a + [x] == [x] && b + [x] == [x];
      assert Glob.IsSubsequence([x][1..], [x][1..]);
    } else {
      assert (b + [x])[0] == b[0] && (b + [x])[1..] == b[1..] + [x];
      if |a| > 0 && a[0] == b[0] && Glob.IsSubsequence(a[1..], b[1..]) {
        SubsequenceSnoc(a[1..], b[1..], x);
        assert (a + [x])[0] == a[0] && (a + [x])[1..] == a[1..] + [x];
      } else if |a| == 0 {
        SubsequenceSnoc(a, b[1..], x);
      } else {
        SubsequenceSnoc(a, b[1..], x);
      }
    }
  }

  // ---------------------------------------------------------------- the tallies of a run

  /** What a collected task satisfies: its type is one the prompt accepts
      and each of its targets is matched by a target pattern. */
  predicate GoodTask(p: Ai.PromptConfig, t: Ai.NoteTask) {
    Ai.MatchesNoteType(p, t.noteType) && forall f :: f in t.targets ==> Glob.AnyMatch(f, p.targetFields)
  }

  predicate AllGood(p: Ai.PromptConfig, tasks: seq<Task>) {
    forall k :: k in tasks ==> GoodTask(p, k.task)
  }

  lemma PreparedGood(note: Json, p: Ai.PromptConfig)
    requires Ai.Prepare(note, p, true).Ready?
    ensures GoodTask(p, Ai.Prepare(note, p, true).task)
  {
    Ai.PrepareReadyIff(note, p, true);
    Ai.PrepareTask(note, p, true);
  }

  lemma CollectedGood(p: Ai.PromptConfig, decks: seq<Json>)
    requires Ai.AllObjects(decks)
    ensures AllGood(p, CollectDecks(p, decks).tasks)
  {
    var tasks := CollectDecks(p, decks).tasks;
    CollectPlaced(p, decks);
    forall k | k in tasks ensures GoodTask(p, k.task) {
      var j :| 0 <= j < |tasks| && tasks[j] == k;
      assert Placed(p, decks, tasks[j]);
      PreparedGood(Ai.NotesOf(decks[k.deckIndex]).items[k.noteIndex], p);
    }
  }

  /** The counters collection fixed stay as they were. */
  predicate SameCounts(a: Ai.PromptRunResult, b: Ai.PromptRunResult) {
    a.processedDecks == b.processedDecks && a.processedNotes == b.processedNotes && a.promptedNotes == b.promptedNotes
  }

  /** Applying answers for `budget` tasks keeps the run's tallies
      consistent, leaves the counters and the deck list's length alone, and
      adds at most one warning per task. */
  predicate Applied(p: Ai.PromptConfig, before: Working, after: Working, budget: nat) {
    Ai.Counted(p, after.result) && SameCounts(before.result, after.result)
    && |after.decks| == |before.decks| && after.result.changedDecks == before.result.changedDecks
    && |after.result.warnings| <= |before.result.warnings| + budget
  }

  lemma TaskStepApplied(p: Ai.PromptConfig, w: Working, k: Task, reply: Result<Entries>)
    requires Ai.Counted(p, w.result) && GoodTask(p, k.task)
    ensures Applied(p, w, TaskStep(p, w, k, reply), 1)
  {
    var v := Verdict(k, reply);
    if v.Ok? {
      var changes := ChangesOf(p, k, v.value);
      if |changes| > 0 {
        forall c | c in w.result.changes + changes ensures Ai.ChangeOk(p, c) {
          if c !in w.result.changes {
            assert c in changes;
            assert c.fieldName in k.task.targets;
          }
        }
      }
    }
  }

  lemma {:induction false} ApplyChunkApplied(p: Ai.PromptConfig, w: Working, chunk: seq<Task>, reply: Result<Entries>)
    requires Ai.Counted(p, w.result) && AllGood(p, chunk)
    ensures Applied(p, w, ApplyChunk(p, w, chunk, reply), |chunk|)
    decreases |chunk|
  {
    if |chunk| > 0 {
      var n := |chunk| - 1;
      assert chunk[n] in chunk;
      assert AllGood(p, chunk[..n]);
      ApplyChunkApplied(p, w, chunk[..n], reply);
      TaskStepApplied(p, ApplyChunk(p, w, chunk[..n], reply), chunk[n], reply);
    }
  }

  lemma {:induction false} ApplyChunksApplied(p: Ai.PromptConfig, w: Working, chunks: seq<seq<Task>>,
                                              replies: seq<Result<Entries>>)
    requires |replies| == |chunks| && Ai.Counted(p, w.result)
    requires forall i :: 0 <= i < |chunks| ==> AllGood(p, chunks[i])
    ensures Applied(p, w, ApplyChunks(p, w, chunks, replies), |Chunking.Flatten(chunks)|)
    decreases |chunks|
  {
    if |chunks| > 0 {
      var n := |chunks| - 1;
      ApplyChunksApplied(p, w, chunks[..n], replies[..n]);
      ApplyChunkApplied(p, ApplyChunks(p, w, chunks[..n], replies[..n]), chunks[n], replies[n]);
      Chunking.FlattenPrefixStep(chunks, n);
      assert chunks[..n + 1] == chunks;
    }
  }

  lemma {:induction false} ChunksGood(p: Ai.PromptConfig, tasks: seq<Task>, n: nat)
    requires n > 0 && AllGood(p, tasks)
    ensures forall i :: 0 <= i < |Chunking.Chunks(tasks, n)| ==> AllGood(p, Chunking.Chunks(tasks, n)[i])
    decreases |tasks|
  {
    if |tasks| > n {
      assert AllGood(p, tasks[n..]) && AllGood(p, tasks[..n]);
      ChunksGood(p, tasks[n..], n);
    }
  }

  lemma ChangedDecksLength(decks: seq<Json>, changed: set<nat>)
    ensures |ChangedDecks(decks, changed)| <= |decks|
  {
    ChangedDecksMeans(decks, changed);
    SubsequenceLength(ChangedDecks(decks, changed), decks);
  }

  lemma {:induction false} SubsequenceLength<T>(a: seq<T>, b: seq<T>)
    requires Glob.IsSubsequence(a, b)
    ensures |a| <= |b|
    decreases |b|
  {
    if |a| > 0 {
      if a[0] == b[0] && Glob.IsSubsequence(a[1..], b[1..]) {
        SubsequenceLength(a[1..], b[1..]);
      } else {
        SubsequenceLength(a, b[1..]);
      }
    }
  }

  /** A run that gets past its checks ends with consistent tallies: the
      field count is the number of changes and every change is this
      prompt's and rewrites a target field of a matching note; decks with
      a notes list and the dict notes in them are counted, one note is
      prompted per accepted note, each note adds at most one warning, and
      no more decks are reported than were selected. */
  lemma RunCounted(data: Json, p: Ai.PromptConfig, o: Options, editor: seq<Ai.NotePayload> -> ChunkAnswer)
    requires Ai.DecksAreObjects(data)
    requires RunSpec(data, p, o, editor).Ok?
    ensures var r := RunSpec(data, p, o, editor).value;
      var working := Ai.SelectDecksWithSubdecks(Get(data, "decks").value.items, o.includeDecks);
      Ai.Counted(p, r)
      && r.processedDecks == ListDecks(working)
      && r.processedNotes == TaskSelection.NotesSeen(working)
      && r.promptedNotes == AcceptedNotes(p, working)
      && |r.warnings| <= r.processedNotes
      && |r.changedDecks| <= |working|
  {
    var working := Ai.SelectDecksWithSubdecks(Get(data, "decks").value.items, o.includeDecks);
    var c := CollectDecks(p, working);
    CollectCounts(p, working);
    CollectTaskCount(p, working);
    assert Ai.Counted(p, c.result);
    if |c.tasks| > 0 {
      var chunks := Chunking.Chunks(c.tasks, o.batchSize);
      var w0 := Working(c.result, working, {});
      var w := ApplyChunks(p, w0, chunks, Dispatch(editor, chunks));
      CollectedGood(p, working);
      ChunksGood(p, c.tasks, o.batchSize);
      ApplyChunksApplied(p, w0, chunks, Dispatch(editor, chunks));
      Chunking.ChunksFlatten(c.tasks, o.batchSize);
      ChangedDecksLength(w.decks, w.changed);
    }
  }
}
