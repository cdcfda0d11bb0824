/** Choosing the decks and notes a task runs on, and building each note's
    task: the fields it may write, the fields it sends, and the write
    fields' text before the run. */
module TaskSelection {
  import opened Wrappers
  import opened Json
  import Text
  import Glob
  import Seqs
  import opened TaskApply

  /** The task's note-type, write-field and read-field patterns. */
  datatype TaskMatchers = TaskMatchers(noteTypes: seq<string>, writeFields: seq<string>, readFields: seq<string>)

  // ---------------------------------------------------------------- decks

  /** The requested deck names, stripped, blanks dropped. */
  function Targets(includeDecks: Option<seq<string>>): (r: seq<string>)
    ensures forall t :: t in r ==> !Text.IsBlank(t)
  {
    match includeDecks
    case None => []
    case Some(names) =>
      NoBlankTargets(names);
      StrippedNonBlank(names)
  }

  function StrippedNonBlank(names: seq<string>): (r: seq<string>)
    ensures |r| <= |names|
    decreases |names|
  {
    if |names| == 0 then []
    else
      var s := Text.Strip(names[0]);
      var rest := StrippedNonBlank(names[1..]);
      if s == [] then rest else [s] + rest
  }

  /** The filter keeps exactly the non-blank stripped names. */
  lemma {:induction false} StrippedNonBlankIff(names: seq<string>, t: string)
    ensures t in StrippedNonBlank(names) <==>
      !Text.IsBlank(t) && exists n :: n in names && Text.Strip(n) == t
    decreases |names|
  {
    if |names| > 0 {
      var s := Text.Strip(names[0]);
      var rest := StrippedNonBlank(names[1..]);
      assert StrippedNonBlank(names) == if s == [] then rest else [s] + rest;
      StrippedNonBlankIff(names[1..], t);
      Text.StripCharsIdempotent(names[0], Text.Whitespace);
      assert Text.IsBlank(s) <==> s == [];
      StripWitness(names, t);
    }
  }

  lemma NoBlankTargets(names: seq<string>)
    ensures forall t :: t in StrippedNonBlank(names) ==> !Text.IsBlank(t)
  {
    forall t | t in StrippedNonBlank(names) {
      StrippedNonBlankIff(names, t);
    }
  }

  /** Some name strips to `t` exactly when the first does or a later one does. */
  lemma StripWitness(names: seq<string>, t: string)
    requires |names| > 0
    ensures (exists n :: n in names && Text.Strip(n) == t) <==>
      Text.Strip(names[0]) == t || exists n :: n in names[1..] && Text.Strip(n) == t
  {
    forall n ensures n in names <==> n == names[0] || n in names[1..] {
      Seqs.InHeadOrTail(names, n);
    }
  }

  predicate IsGlob(target: string) {
    '*' in target || '?' in target || '[' in target
  }

  /** `matches_deck_scope(deck_name, target, include_subdecks)`. */
  function MatchesDeckScope(deckName: string, target: string, includeSubdecks: bool): (r: bool)
    ensures IsGlob(target) ==> (r <==> Glob.Match(deckName, target))
    ensures !IsGlob(target) ==>
      (r <==> deckName == target || (includeSubdecks && Text.StartsWith(deckName, target + "::")))
  {
    if IsGlob(target) then Glob.Match(deckName, target)
    else deckName == target || (includeSubdecks && Text.StartsWith(deckName, target + "::"))
  }

  function DeckName(deck: Json): string {
    StrOr(deck, "name", "")
  }

  predicate InScope(deck: Json, targets: seq<string>, includeSubdecks: bool) {
    exists i :: 0 <= i < |targets| && MatchesDeckScope(DeckName(deck), targets[i], includeSubdecks)
  }

  function FilterDecks(decks: seq<Json>, targets: seq<string>, includeSubdecks: bool): (r: seq<Json>)
    ensures forall d :: d in r <==> d in decks && InScope(d, targets, includeSubdecks)
    ensures Glob.IsSubsequence(r, decks)
    decreases |decks|
  {
    if |decks| == 0 then []
    else if InScope(decks[0], targets, includeSubdecks) then
      [decks[0]] + FilterDecks(decks[1..], targets, includeSubdecks)
    else
      var r := FilterDecks(decks[1..], targets, includeSubdecks);
      SubsequenceSkip(r, decks);
      r
  }

  lemma SubsequenceSkip<T>(a: seq<T>, b: seq<T>)
    requires |b| > 0 && Glob.IsSubsequence(a, b[1..])
    ensures Glob.IsSubsequence(a, b)
  {
  }

  /** `select_decks`: every deck when no target is given or `*` is one of
      them; otherwise the decks some target matches, in their order. */
  function SelectDecks(decks: seq<Json>, includeDecks: Option<seq<string>>, includeSubdecks: bool): (r: seq<Json>)
    ensures var t := Targets(includeDecks);
      (|t| == 0 || "*" in t) ==> r == decks
    ensures var t := Targets(includeDecks);
      !(|t| == 0 || "*" in t) ==>
        (forall d :: d in r <==> d in decks && InScope(d, t, includeSubdecks))
        && Glob.IsSubsequence(r, decks)
  {
    var targets := Targets(includeDecks);
    if |targets| == 0 || "*" in targets then decks
    else FilterDecks(decks, targets, includeSubdecks)
  }

  // ---------------------------------------------------------------- notes

  /** `normalize_note_key`: a non-blank string, stripped; `None` otherwise. */
  function NormalizeNoteKey(raw: Option<Json>): (r: Option<string>)
    ensures r.Some? <==> raw.Some? && raw.value.JStr? && !Text.IsBlank(raw.value.s)
    ensures r.Some? ==> r.value == Text.Strip(raw.value.s) && r.value != []
  {
    match raw
    case Some(JStr(s)) => if Text.Strip(s) == [] then None else Some(Text.Strip(s))
    case _ => None
  }

  /** `normalize_note_type`: the same rule as for keys. */
  function NormalizeNoteType(raw: Option<Json>): (r: Option<string>)
    ensures r.Some? <==> raw.Some? && raw.value.JStr? && !Text.IsBlank(raw.value.s)
    ensures r.Some? ==> r.value == Text.Strip(raw.value.s) && r.value != []
  {
    NormalizeNoteKey(raw)
  }

  /** The read fields, then each write field not already present: the
      specification of `merge_read_and_write_fields`. */
  function MergeFrom(acc: seq<string>, more: seq<string>): (r: seq<string>)
    ensures |acc| <= |r| && r[..|acc|] == acc
    ensures forall f :: f in r <==> f in acc || f in more
    decreases |more|
  {
    if |more| == 0 then acc
    else if more[0] in acc then MergeFrom(acc, more[1..])
    else
      var r := MergeFrom(acc + [more[0]], more[1..]);
      assert r[..|acc|] == (acc + [more[0]])[..|acc|];
      r
  }

  predicate NoDuplicates(s: seq<string>) {
    forall i, j :: 0 <= i < j < |s| ==> s[i] != s[j]
  }

  /** Merging adds no duplicates: a duplicate-free read list stays
      duplicate-free. */
  lemma {:induction false} MergeNoDuplicates(acc: seq<string>, more: seq<string>)
    requires NoDuplicates(acc)
    ensures NoDuplicates(MergeFrom(acc, more))
    decreases |more|
  {
    if |more| > 0 {
      if more[0] !in acc {
        MergeNoDuplicates(acc + [more[0]], more[1..]);
      } else {
        MergeNoDuplicates(acc, more[1..]);
      }
    }
  }

  /** `merge_read_and_write_fields`, with its `seen` set. */
  method MergeReadAndWriteFields(readFields: seq<string>, writeFields: seq<string>) returns (merged: seq<string>)
    ensures merged == MergeFrom(readFields, writeFields)
    ensures |readFields| <= |merged| && merged[..|readFields|] == readFields
    ensures forall f :: f in writeFields ==> f in merged
  {
    merged := readFields;
    var seen := set f | f in readFields;
    var i := 0;
    while i < |writeFields|
      invariant 0 <= i <= |writeFields|
      invariant seen == set f | f in merged
      invariant MergeFrom(merged, writeFields[i..]) == MergeFrom(readFields, writeFields)
    {
      var f := writeFields[i];
      assert writeFields[i..][1..] == writeFields[i + 1..];
      if f !in seen {
        merged := merged + [f];
        seen := seen + {f};
      }
      i := i + 1;
    }
  }

  /** The string-valued members of a note's fields, in order. */
  function StringFields(members: seq<(string, Json)>): (r: seq<(string, string)>)
    ensures forall i :: 0 <= i < |r| ==> (r[i].0, JStr(r[i].1)) in members
    decreases |members|
  {
    if |members| == 0 then []
    else
      var rest := StringFields(members[1..]);
      if members[0].1.JStr? then [(members[0].0, members[0].1.s)] + rest else rest
  }

  function LookupStr(fields: seq<(string, string)>, name: string): string
    decreases |fields|
  {
    if |fields| == 0 then "" else if fields[0].0 == name then fields[0].1 else LookupStr(fields[1..], name)
  }

  /** What a note contributes to a task run. */
  datatype Outcome =
    | NotObject                 // not a dict: not even counted as processed
    | Skipped                   // processed, but no task and no warning
    | Warned(warning: string)   // processed, a warning and no task
    | Matched(task: NoteTask)

  /** The task of a dict note whose key and type are known and in scope:
      `None` when it has no fields dict, no string field, or no writable
      field. */
  function BuildTask(deckName: string, deckIndex: nat, noteKey: string, noteType: string,
                     fieldsValue: Option<Json>, m: TaskMatchers): (r: Option<NoteTask>)
    ensures r.Some? ==>
      var t := r.value;
      t.deckName == deckName && t.deckIndex == deckIndex && t.noteKey == noteKey && t.noteType == noteType
      && fieldsValue == Some(JObj(t.noteFields))
      && |t.writeFields| > 0
      && (forall f :: f in t.writeFields <==> f in t.originalWriteFields)
      && (forall f :: f in t.writeFields ==> Glob.AnyMatch(f, m.writeFields))
      && Seqs.Firsts(t.payloadFields)
         == MergeFrom(Glob.SelectNames(Seqs.Firsts(StringFields(t.noteFields)), m.readFields), t.writeFields)
  {
    match fieldsValue
    case Some(JObj(fields)) =>
      var stringFields := StringFields(fields);
      var names := Seqs.Firsts(stringFields);
      var writeFields := Glob.SelectNames(names, m.writeFields);
      if |stringFields| == 0 || |writeFields| == 0 then None
      else
        var readFields := MergeFrom(Glob.SelectNames(names, m.readFields), writeFields);
        var payload := seq(|readFields|, i requires 0 <= i < |readFields| =>
          (readFields[i], LookupStr(stringFields, readFields[i])));
        var snapshot := map f | f in writeFields :: LookupStr(stringFields, f);
        assert Seqs.Firsts(payload) == readFields;
        Some(NoteTask(deckName, noteKey, noteType, fields, snapshot, writeFields, payload, deckIndex))
    case _ => None
  }

  /** One note of `iter_note_tasks`: key and type must be present, the type
      must be in scope, and some string field must be writable. */
  function NoteOutcome(deckName: string, deckIndex: nat, note: Json, m: TaskMatchers): (r: Outcome)
    ensures r.NotObject? <==> !note.JObj?
    ensures note.JObj? && NormalizeNoteKey(Get(note, "note_key")).None? ==>
      r == Warned(deckName + "/<missing-note_key>: skipped note without note_key")
    ensures note.JObj? && NormalizeNoteKey(Get(note, "note_key")).Some?
            && NormalizeNoteType(Get(note, "note_type")).None? ==>
      r == Warned(deckName + "/" + NormalizeNoteKey(Get(note, "note_key")).value
                  + ": skipped note without note_type")
    ensures r.Matched? ==>
      Some(r.task.noteKey) == NormalizeNoteKey(Get(note, "note_key"))
      && Some(r.task.noteType) == NormalizeNoteType(Get(note, "note_type"))
      && Glob.AnyMatch(r.task.noteType, m.noteTypes)
      && Some(r.task) == BuildTask(deckName, deckIndex, r.task.noteKey, r.task.noteType, Get(note, "fields"), m)
  {
    if !note.JObj? then NotObject
    else
      match NormalizeNoteKey(Get(note, "note_key"))
      case None => Warned(deckName + "/<missing-note_key>: skipped note without note_key")
      case Some(noteKey) =>
        match NormalizeNoteType(Get(note, "note_type"))
        case None => Warned(deckName + "/" + noteKey + ": skipped note without note_type")
        case Some(noteType) =>
          if !Glob.AnyMatch(noteType, m.noteTypes) then Skipped
          else
            match BuildTask(deckName, deckIndex, noteKey, noteType, Get(note, "fields"), m)
            case None => Skipped
            case Some(t) => Matched(t)
  }

  /** The tasks of a list of notes, in order. */
  function NotesTasks(deckName: string, deckIndex: nat, notes: seq<Json>, m: TaskMatchers): seq<NoteTask>
    decreases |notes|
  {
    if |notes| == 0 then []
    else
      var o := NoteOutcome(deckName, deckIndex, notes[|notes| - 1], m);
      NotesTasks(deckName, deckIndex, notes[..|notes| - 1], m) + (if o.Matched? then [o.task] else [])
  }

  function NotesWarnings(deckName: string, deckIndex: nat, notes: seq<Json>, m: TaskMatchers): seq<string>
    decreases |notes|
  {
    if |notes| == 0 then []
    else
      var o := NoteOutcome(deckName, deckIndex, notes[|notes| - 1], m);
      NotesWarnings(deckName, deckIndex, notes[..|notes| - 1], m) + (if o.Warned? then [o.warning] else [])
  }

  /** How many of the notes are dicts. */
  function ObjectCount(notes: seq<Json>): nat
    decreases |notes|
  {
    if |notes| == 0 then 0
    else ObjectCount(notes[..|notes| - 1]) + (if notes[|notes| - 1].JObj? then 1 else 0)
  }

  /** A deck's `notes` list, when it has one. */
  function NotesOf(deck: Json): Option<seq<Json>> {
    match Get(deck, "notes")
    case Some(JArr(items)) => Some(items)
    case _ => None
  }

  function DeckTasks(decks: seq<Json>, m: TaskMatchers): seq<NoteTask>
    decreases |decks|
  {
    if |decks| == 0 then []
    else
      var k := |decks| - 1;
      DeckTasks(decks[..k], m)
      + (match NotesOf(decks[k]) case Some(notes) => NotesTasks(DeckName(decks[k]), k, notes, m) case None => [])
  }

  function DeckWarnings(decks: seq<Json>, m: TaskMatchers): seq<string>
    decreases |decks|
  {
    if |decks| == 0 then []
    else
      var k := |decks| - 1;
      DeckWarnings(decks[..k], m)
      + (match NotesOf(decks[k]) case Some(notes) => NotesWarnings(DeckName(decks[k]), k, notes, m) case None => [])
  }

  /** Decks that have a notes list. */
  function DecksWithNotes(decks: seq<Json>): nat
    decreases |decks|
  {
    if |decks| == 0 then 0
    else DecksWithNotes(decks[..|decks| - 1]) + (if NotesOf(decks[|decks| - 1]).Some? then 1 else 0)
  }

  /** Dict notes across the decks that have a notes list. */
  function NotesSeen(decks: seq<Json>): nat
    decreases |decks|
  {
    if |decks| == 0 then 0
    else
      var k := |decks| - 1;
      NotesSeen(decks[..k]) + (match NotesOf(decks[k]) case Some(notes) => ObjectCount(notes) case None => 0)
  }

  /** Every task comes from a dict note, so there are never more tasks than
      processed notes. */
  lemma {:induction false} NotesTasksBound(deckName: string, deckIndex: nat, notes: seq<Json>, m: TaskMatchers)
    ensures |NotesTasks(deckName, deckIndex, notes, m)| + |NotesWarnings(deckName, deckIndex, notes, m)|
            <= ObjectCount(notes)
    decreases |notes|
  {
    if |notes| > 0 {
      NotesTasksBound(deckName, deckIndex, notes[..|notes| - 1], m);
    }
  }

  lemma {:induction false} DeckTasksBound(decks: seq<Json>, m: TaskMatchers)
    ensures |DeckTasks(decks, m)| + |DeckWarnings(decks, m)| <= NotesSeen(decks)
    decreases |decks|
  {
    if |decks| > 0 {
      var k := |decks| - 1;
      DeckTasksBound(decks[..k], m);
      match NotesOf(decks[k]) {
        case Some(notes) => NotesTasksBound(DeckName(decks[k]), k, notes, m);
        case None =>
      }
    }
  }

  /** `iter_note_tasks`, run to exhaustion: the tasks in deck and note order;
      the counters and the warnings are updated on `result`. */
  method IterNoteTasks(selectedDecks: seq<Json>, m: TaskMatchers, maxWarnings: int, result: TaskRunResult)
    returns (tasks: seq<NoteTask>)
    modifies result
    ensures tasks == DeckTasks(selectedDecks, m)
    ensures result.processedDecks == old(result.processedDecks) + DecksWithNotes(selectedDecks)
    ensures result.processedNotes == old(result.processedNotes) + NotesSeen(selectedDecks)
    ensures result.matchedNotes == old(result.matchedNotes) + |tasks|
    ensures |result.warnings| + result.droppedWarnings
            == |old(result.warnings)| + old(result.droppedWarnings) + |DeckWarnings(selectedDecks, m)|
    ensures |old(result.warnings)| <= maxWarnings ==> |result.warnings| <= maxWarnings
    ensures result.changedFields == old(result.changedFields) && result.changes == old(result.changes)
  {
    tasks := [];
    var k := 0;
    while k < |selectedDecks|
      invariant 0 <= k <= |selectedDecks|
      invariant tasks == DeckTasks(selectedDecks[..k], m)
      invariant result.processedDecks == old(result.processedDecks) + DecksWithNotes(selectedDecks[..k])
      invariant result.processedNotes == old(result.processedNotes) + NotesSeen(selectedDecks[..k])
      invariant result.matchedNotes == old(result.matchedNotes) + |tasks|
      invariant |result.warnings| + result.droppedWarnings
                == |old(result.warnings)| + old(result.droppedWarnings) + |DeckWarnings(selectedDecks[..k], m)|
      invariant |old(result.warnings)| <= maxWarnings ==> |result.warnings| <= maxWarnings
      invariant result.changedFields == old(result.changedFields) && result.changes == old(result.changes)
    {
      var deck := selectedDecks[k];
      assert selectedDecks[..k + 1][..k] == selectedDecks[..k];
      assert selectedDecks[..k + 1][k] == deck;
      match NotesOf(deck) {
        case None =>
        case Some(notes) =>
          result.processedDecks := result.processedDecks + 1;
          var more := ScanNotes(DeckName(deck), k, notes, m, maxWarnings, result);
          tasks := tasks + more;
      }
      k := k + 1;
    }
    assert selectedDecks[..k] == selectedDecks;
  }

  lemma NotesStep(deckName: string, deckIndex: nat, notes: seq<Json>, m: TaskMatchers, i: nat)
    requires i < |notes|
    ensures var o := NoteOutcome(deckName, deckIndex, notes[i], m);
      NotesTasks(deckName, deckIndex, notes[..i + 1], m)
        == NotesTasks(deckName, deckIndex, notes[..i], m) + (if o.Matched? then [o.task] else [])
      && NotesWarnings(deckName, deckIndex, notes[..i + 1], m)
        == NotesWarnings(deckName, deckIndex, notes[..i], m) + (if o.Warned? then [o.warning] else [])
      && ObjectCount(notes[..i + 1]) == ObjectCount(notes[..i]) + (if notes[i].JObj? then 1 else 0)
  {
    assert notes[..i + 1][..i] == notes[..i];
  }

  /** The body of the inner loop for one note's outcome. */
  method TakeNote(o: Outcome, maxWarnings: int, result: TaskRunResult) returns (more: seq<NoteTask>)
    modifies result
    ensures more == if o.Matched? then [o.task] else []
    ensures result.processedDecks == old(result.processedDecks)
    ensures result.processedNotes == old(result.processedNotes) + (if o.NotObject? then 0 else 1)
    ensures result.matchedNotes == old(result.matchedNotes) + |more|
    ensures |result.warnings| + result.droppedWarnings
            == |old(result.warnings)| + old(result.droppedWarnings) + (if o.Warned? then 1 else 0)
    ensures |old(result.warnings)| <= maxWarnings ==> |result.warnings| <= maxWarnings
    ensures result.changedFields == old(result.changedFields) && result.changes == old(result.changes)
  {
    more := [];
    if !o.NotObject? {
      result.processedNotes := result.processedNotes + 1;
      match o {
        case Warned(w) =>
          result.AddWarning(w, maxWarnings);
        case Matched(t) =>
          result.matchedNotes := result.matchedNotes + 1;
          more := [t];
        case Skipped =>
      }
    }
  }

  /** The inner loop of `iter_note_tasks` over one deck's notes. */
  method ScanNotes(deckName: string, deckIndex: nat, notes: seq<Json>, m: TaskMatchers, maxWarnings: int,
                   result: TaskRunResult)
    returns (tasks: seq<NoteTask>)
    modifies result
    ensures tasks == NotesTasks(deckName, deckIndex, notes, m)
    ensures result.processedDecks == old(result.processedDecks)
    ensures result.processedNotes == old(result.processedNotes) + ObjectCount(notes)
    ensures result.matchedNotes == old(result.matchedNotes) + |tasks|
    ensures |result.warnings| + result.droppedWarnings
            == |old(result.warnings)| + old(result.droppedWarnings) + |NotesWarnings(deckName, deckIndex, notes, m)|
    ensures |old(result.warnings)| <= maxWarnings ==> |result.warnings| <= maxWarnings
    ensures result.changedFields == old(result.changedFields) && result.changes == old(result.changes)
  {
    tasks := [];
    var i := 0;
    while i < |notes|
      invariant 0 <= i <= |notes|
      invariant tasks == NotesTasks(deckName, deckIndex, notes[..i], m)
      invariant result.processedDecks == old(result.processedDecks)
      invariant result.processedNotes == old(result.processedNotes) + ObjectCount(notes[..i])
      invariant result.matchedNotes == old(result.matchedNotes) + |tasks|
      invariant |result.warnings| + result.droppedWarnings
                == |old(result.warnings)| + old(result.droppedWarnings)
                   + |NotesWarnings(deckName, deckIndex, notes[..i], m)|
      invariant |old(result.warnings)| <= maxWarnings ==> |result.warnings| <= maxWarnings
      invariant result.changedFields == old(result.changedFields) && result.changes == old(result.changes)
    {
      var o := NoteOutcome(deckName, deckIndex, notes[i], m);
      NotesStep(deckName, deckIndex, notes, m, i);
      var more := TakeNote(o, maxWarnings, result);
      tasks := tasks + more;
      i := i + 1;
    }
    assert notes[..i] == notes;
  }
}
