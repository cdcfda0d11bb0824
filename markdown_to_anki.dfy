/** The older importer: each deck file is synchronised to Anki by resolving
    its deck, classifying its notes against Anki's notes, deleting the deck's
    notes no file mentions, and sending everything as one batch of actions
    whose answers are routed back to the changes that caused them. */
module MarkdownToAnki {
  import opened Wrappers
  import Text
  import Sorting
  import opened SyncSummaries

  /** An HTML field dict, in insertion order. */
  type Fields = seq<(string, string)>

  /** A note of a deck file as the importer reads it. `problems` is what the
      note's validation reports and `html` what the converter makes of its
      fields (or the message it raised). */
  datatype FileNote = FileNote(noteId: Option<int>, identifier: string, noteType: string, firstLine: string,
                               problems: seq<string>, html: Result<Fields>)

  datatype AnkiNote = AnkiNote(noteType: string, cardIds: seq<int>)

  /** What the importer fetched from Anki. `cardDecks` maps a card to the
      `deckName` entry of its info, if it has one. */
  datatype AnkiState = AnkiState(deckNamesById: map<int, string>, deckIdsByName: map<string, int>,
                                 notesById: map<int, AnkiNote>, cardDecks: map<int, Option<string>>)

  /** A change and the context entries the importer attaches to it: the
      cards of a move, the HTML fields of an update or creation, and the
      note of a creation. */
  datatype ImportChange = ImportChange(kind: ChangeType, noteId: Option<int>, repr: string,
                                       cards: seq<int>, html: Option<Fields>, note: Option<FileNote>)

  /** Python truthiness of an optional id: present and not zero. */
  predicate Truthy(id: Option<int>) { id.Some? && id.value != 0 }

  // ---------------------------------------------------------------- deck resolution

  datatype DeckResolution = DeckResolution(deckName: string, needsCreate: bool, deckIdToWrite: Option<int>)

  /** Phase 0 of `_sync_file`: a known deck id gives its name; otherwise the
      file stem with `__` turned back into `::` names the deck, which is
      created when Anki lacks it, and whose id is written to a file that
      has none. */
  function ResolveDeck(fileDeckId: Option<int>, stem: string, anki: AnkiState): (r: DeckResolution)
    ensures Truthy(fileDeckId) && fileDeckId.value in anki.deckNamesById ==>
      r == DeckResolution(anki.deckNamesById[fileDeckId.value], false, None)
    ensures !(Truthy(fileDeckId) && fileDeckId.value in anki.deckNamesById) ==>
      && r.deckName == Text.ReplaceAll(stem, "__", "::")
      && (r.needsCreate <==> r.deckName !in anki.deckIdsByName)
      && (r.deckIdToWrite.Some? <==> r.deckName in anki.deckIdsByName && !Truthy(fileDeckId))
      && (r.deckIdToWrite.Some? ==> r.deckIdToWrite.value == anki.deckIdsByName[r.deckName])
  {
    if Truthy(fileDeckId) && fileDeckId.value in anki.deckNamesById then
      DeckResolution(anki.deckNamesById[fileDeckId.value], false, None)
    else
      var name := Text.ReplaceAll(stem, "__", "::");
      if name !in anki.deckIdsByName then DeckResolution(name, true, None)
      else if !Truthy(fileDeckId) then DeckResolution(name, false, Some(anki.deckIdsByName[name]))
      else DeckResolution(name, false, None)
  }

  /** The resolved deck exists in Anki unless its creation is requested, a
      creation never comes with an id to write, and the id written is the
      id Anki has for the resolved name. */
  lemma ResolvedDeckExists(fileDeckId: Option<int>, stem: string, anki: AnkiState)
    ensures var r := ResolveDeck(fileDeckId, stem, anki);
      && (r.needsCreate || r.deckName in anki.deckIdsByName || r.deckName in anki.deckNamesById.Values)
      && !(r.needsCreate && r.deckIdToWrite.Some?)
      && (r.deckIdToWrite.Some? ==> r.deckName in anki.deckIdsByName
                                    && anki.deckIdsByName[r.deckName] == r.deckIdToWrite.value)
  {
    var r := ResolveDeck(fileDeckId, stem, anki);
    if Truthy(fileDeckId) && fileDeckId.value in anki.deckNamesById {
      assert anki.deckNamesById[fileDeckId.value] in anki.deckNamesById.Values;
    }
  }

  // ---------------------------------------------------------------- classification

  datatype NoteOutcome = NoteOutcome(changes: seq<ImportChange>, errors: seq<string>)

  /** The cards of a note that sit in a card record naming another deck (or
      naming none). */
  function MoveCards(cardIds: seq<int>, cardDecks: map<int, Option<string>>, deckName: string): (r: seq<int>)
    ensures forall c :: c in r <==> c in cardIds && c in cardDecks && cardDecks[c] != Some(deckName)
    decreases |cardIds|
  {
    if |cardIds| == 0 then []
    else
      var c := cardIds[|cardIds| - 1];
      var init := cardIds[..|cardIds| - 1];
      assert cardIds == init + [c];
      MoveCards(init, cardDecks, deckName) + (if c in cardDecks && cardDecks[c] != Some(deckName) then [c] else [])
  }

  function NoteErrors(identifier: string, messages: seq<string>): (r: seq<string>)
    ensures |r| == |messages|
  {
    seq(|messages|, i requires 0 <= i < |messages| => "Note " + identifier + ": " + messages[i])
  }

  function MismatchError(note: FileNote, anki: AnkiNote): string
    requires note.noteId.Some?
  {
    "Note type mismatch for note " + Text.IntToString(note.noteId.value) + " (" + note.identifier
    + "): Markdown specifies '" + note.noteType + "' but Anki has '" + anki.noteType + "'."
  }

  /** Phase 1 of `_sync_file` for one note. `sameFields` stands for
      `note.html_fields_match`. A note that fails validation or conversion is
      only reported; a note without an id, or whose id Anki does not know,
      is created; a known note is skipped when only new notes are wanted,
      gets a move for its cards in other decks, is refused when its type
      differs from Anki's, and is otherwise skipped or updated. */
  function ClassifyNote(note: FileNote, anki: AnkiState, deckName: string, onlyAddNew: bool,
                        sameFields: (Fields, AnkiNote) -> bool): (o: NoteOutcome)
    ensures |note.problems| > 0 ==> o == NoteOutcome([], NoteErrors(note.identifier, note.problems))
    ensures note.problems == [] && note.html.Err? ==> o == NoteOutcome([], NoteErrors(note.identifier, [note.html.error]))
    ensures note.problems == [] && note.html.Ok? && !Truthy(note.noteId) ==>
      o == NoteOutcome([ImportChange(Create, None, note.identifier, [], Some(note.html.value), Some(note))], [])
    ensures note.problems == [] && note.html.Ok? && Truthy(note.noteId) && onlyAddNew ==>
      o == NoteOutcome([ImportChange(Skip, note.noteId, note.identifier, [], None, None)], [])
    ensures note.problems == [] && note.html.Ok? && Truthy(note.noteId) && !onlyAddNew
            && note.noteId.value !in anki.notesById ==>
      o == NoteOutcome([ImportChange(Create, None, note.identifier, [], Some(note.html.value), Some(note))], [])
    ensures note.problems == [] && note.html.Ok? && Truthy(note.noteId) && !onlyAddNew
            && note.noteId.value in anki.notesById ==>
      var a := anki.notesById[note.noteId.value];
      var moves := MoveCards(a.cardIds, anki.cardDecks, deckName);
      var lead := if moves == [] then [] else [ImportChange(Move, note.noteId, note.identifier, moves, None, None)];
      if a.noteType != note.noteType then o == NoteOutcome(lead, [MismatchError(note, a)])
      else if sameFields(note.html.value, a) then
        o == NoteOutcome(lead + [ImportChange(Skip, note.noteId, note.identifier, [], None, None)], [])
      else
        o == NoteOutcome(lead + [ImportChange(Update, note.noteId, note.identifier, [], Some(note.html.value), None)], [])
  {
    if |note.problems| > 0 then NoteOutcome([], NoteErrors(note.identifier, note.problems))
    else if note.html.Err? then NoteOutcome([], NoteErrors(note.identifier, [note.html.error]))
    else if !Truthy(note.noteId) then
      NoteOutcome([ImportChange(Create, None, note.identifier, [], Some(note.html.value), Some(note))], [])
    else if onlyAddNew then
      NoteOutcome([ImportChange(Skip, note.noteId, note.identifier, [], None, None)], [])
    else if note.noteId.value !in anki.notesById then
      NoteOutcome([ImportChange(Create, None, note.identifier, [], Some(note.html.value), Some(note))], [])
    else
      var a := anki.notesById[note.noteId.value];
      var moves := MoveCards(a.cardIds, anki.cardDecks, deckName);
      var lead := if moves == [] then [] else [ImportChange(Move, note.noteId, note.identifier, moves, None, None)];
      if a.noteType != note.noteType then NoteOutcome(lead, [MismatchError(note, a)])
      else if sameFields(note.html.value, a) then
        NoteOutcome(lead + [ImportChange(Skip, note.noteId, note.identifier, [], None, None)], [])
      else
        NoteOutcome(lead + [ImportChange(Update, note.noteId, note.identifier, [], Some(note.html.value), None)], [])
  }

  /** Whether a change settles its note's content: a creation, update or skip. */
  predicate Settles(c: ImportChange) { c.kind in {Create, Update, Skip} }

  /** What one note yields: at most one change settling its content, which
      comes last; an update or skip only for a note Anki has with the same
      type (unless only new notes are wanted); a move only for a note Anki
      has; and nothing at all for a note with errors of its own. */
  lemma ClassifyNoteShape(note: FileNote, anki: AnkiState, deckName: string, onlyAddNew: bool,
                          sameFields: (Fields, AnkiNote) -> bool)
    ensures var o := ClassifyNote(note, anki, deckName, onlyAddNew, sameFields);
      && (forall i :: 0 <= i < |o.changes| - 1 ==> o.changes[i].kind == Move)
      && (forall i :: 0 <= i < |o.changes| && o.changes[i].kind in {Update, Move} ==>
            Truthy(note.noteId) && note.noteId.value in anki.notesById && o.changes[i].noteId == note.noteId)
      && (forall i :: 0 <= i < |o.changes| && o.changes[i].kind == Update ==>
            anki.notesById[note.noteId.value].noteType == note.noteType)
      && (forall i :: 0 <= i < |o.changes| && o.changes[i].kind == Skip && !onlyAddNew ==>
            Truthy(note.noteId) && note.noteId.value in anki.notesById
            && anki.notesById[note.noteId.value].noteType == note.noteType)
      && (|note.problems| > 0 || note.html.Err? ==> o.changes == [])
      && (o.errors != [] ==> forall i :: 0 <= i < |o.changes| ==> !Settles(o.changes[i]))
  {
  }

  /** The classification of a file's notes, in file order. */
  function ClassifyAll(notes: seq<FileNote>, anki: AnkiState, deckName: string, onlyAddNew: bool,
                       sameFields: (Fields, AnkiNote) -> bool): NoteOutcome
    decreases |notes|
  {
    if |notes| == 0 then NoteOutcome([], [])
    else
      var prior := ClassifyAll(notes[..|notes| - 1], anki, deckName, onlyAddNew, sameFields);
      var last := ClassifyNote(notes[|notes| - 1], anki, deckName, onlyAddNew, sameFields);
      NoteOutcome(prior.changes + last.changes, prior.errors + last.errors)
  }

  /** The note loop of `_sync_file`. */
  method ClassifyNotes(notes: seq<FileNote>, anki: AnkiState, deckName: string, onlyAddNew: bool,
                       sameFields: (Fields, AnkiNote) -> bool)
    returns (changes: seq<ImportChange>, errors: seq<string>)
    ensures NoteOutcome(changes, errors) == ClassifyAll(notes, anki, deckName, onlyAddNew, sameFields)
  {
    changes, errors := [], [];
    var i := 0;
    while i < |notes|
      invariant 0 <= i <= |notes|
      invariant NoteOutcome(changes, errors) == ClassifyAll(notes[..i], anki, deckName, onlyAddNew, sameFields)
    {
      var o := ClassifyNote(notes[i], anki, deckName, onlyAddNew, sameFields);
      changes := changes + o.changes;
      errors := errors + o.errors;
      assert notes[..i + 1][..i] == notes[..i];
      i := i + 1;
    }
    assert notes[..i] == notes;
  }

  /** Across a whole file, every update names a note Anki has with the
      file's type, and every move names a note Anki has. */
  lemma {:induction false} ClassifyAllUpdatesKnown(notes: seq<FileNote>, anki: AnkiState, deckName: string,
                                                   onlyAddNew: bool, sameFields: (Fields, AnkiNote) -> bool)
    ensures var o := ClassifyAll(notes, anki, deckName, onlyAddNew, sameFields);
      forall c :: c in o.changes && c.kind in {Update, Move} ==>
        c.noteId.Some? && c.noteId.value in anki.notesById
    decreases |notes|
  {
    if |notes| > 0 {
      ClassifyAllUpdatesKnown(notes[..|notes| - 1], anki, deckName, onlyAddNew, sameFields);
      ClassifyNoteShape(notes[|notes| - 1], anki, deckName, onlyAddNew, sameFields);
      var last := ClassifyNote(notes[|notes| - 1], anki, deckName, onlyAddNew, sameFields);
      forall c | c in last.changes && c.kind in {Update, Move}
        ensures c.noteId.Some? && c.noteId.value in anki.notesById
      {
        var i :| 0 <= i < |last.changes| && last.changes[i] == c;
      }
    }
  }

  // ---------------------------------------------------------------- orphans

  function DeleteOf(nid: int): ImportChange {
    ImportChange(Delete, Some(nid), "note_id: " + Text.IntToString(nid), [], None, None)
  }

  function Deletes(ids: seq<int>): (r: seq<ImportChange>)
    ensures |r| == |ids| && forall i :: 0 <= i < |r| ==> r[i] == DeleteOf(ids[i])
  {
    seq(|ids|, i requires 0 <= i < |ids| => DeleteOf(ids[i]))
  }

  /** The orphan deletions of `_sync_file`: one for each note Anki lists in
      the deck (`deckNoteIds`) that neither this file nor (when given) any
      file of the collection mentions, each once. */
  method OrphanDeletes(deckNoteIds: seq<int>, fileNoteIds: set<int>, globalNoteIds: set<int>)
    returns (ids: seq<int>, deletes: seq<ImportChange>)
    ensures deletes == Deletes(ids)
    ensures forall nid :: nid in ids <==> nid in deckNoteIds && nid !in fileNoteIds && nid !in globalNoteIds
    ensures forall i, j :: 0 <= i < j < |ids| ==> ids[i] != ids[j]
  {
    ids := [];
    var k := 0;
    while k < |deckNoteIds|
      invariant 0 <= k <= |deckNoteIds|
      invariant forall nid :: nid in ids <==> nid in deckNoteIds[..k] && nid !in fileNoteIds && nid !in globalNoteIds
      invariant forall i, j :: 0 <= i < j < |ids| ==> ids[i] != ids[j]
    {
      var nid := deckNoteIds[k];
      if nid !in fileNoteIds && nid !in globalNoteIds && nid !in ids {
        ids := ids + [nid];
      }
      assert deckNoteIds[..k + 1] == deckNoteIds[..k] + [nid];
      k := k + 1;
    }
    assert deckNoteIds[..k] == deckNoteIds;
    deletes := Deletes(ids);
  }

  // ---------------------------------------------------------------- _build_anki_actions

  datatype Action =
    | CreateDeck(deck: string)
    | ChangeDeck(cards: seq<int>, deck: string)
    | UpdateNoteFields(noteId: int, fields: Fields)
    | DeleteNotes(noteIds: seq<int>)
    | AddNote(deck: string, modelName: string, fields: Fields)

  /** The tag that routes an action's answer back. */
  datatype Tag = CreateDeckTag | ChangeDeckTag | UpdateTag | DeleteTag | CreateTag

  function TagOf(a: Action): Tag {
    match a
    case CreateDeck(_) => CreateDeckTag
    case ChangeDeck(_, _) => ChangeDeckTag
    case UpdateNoteFields(_, _) => UpdateTag
    case DeleteNotes(_) => DeleteTag
    case AddNote(_, _, _) => CreateTag
  }

  /** The position of an action's kind in the batch. */
  function Rank(a: Action): nat {
    match a
    case CreateDeck(_) => 0
    case ChangeDeck(_, _) => 1
    case UpdateNoteFields(_, _) => 2
    case DeleteNotes(_) => 3
    case AddNote(_, _, _) => 4
  }

  function Tags(actions: seq<Action>): (r: seq<Tag>)
    ensures |r| == |actions| && forall i :: 0 <= i < |r| ==> r[i] == TagOf(actions[i])
  {
    seq(|actions|, i requires 0 <= i < |actions| => TagOf(actions[i]))
  }

  /** An update that becomes an action: it has a truthy id and non-empty fields. */
  predicate UpdateActs(c: ImportChange) {
    c.kind == Update && Truthy(c.noteId) && c.html.Some? && |c.html.value| > 0
  }

  /** A creation that becomes an action: it carries its note and non-empty fields. */
  predicate CreateActs(c: ImportChange) {
    c.kind == Create && c.note.Some? && c.html.Some? && |c.html.value| > 0
  }

  /** The cards of all moves, in change order, repetitions included. */
  function MovedCards(changes: seq<ImportChange>): seq<int>
    decreases |changes|
  {
    if |changes| == 0 then []
    else
      var c := changes[|changes| - 1];
      MovedCards(changes[..|changes| - 1]) + (if c.kind == Move then c.cards else [])
  }

  function ActionUpdates(changes: seq<ImportChange>): (r: seq<ImportChange>)
    ensures forall c :: c in r ==> c in changes && UpdateActs(c)
    ensures forall i :: 0 <= i < |r| ==> UpdateActs(r[i])
    ensures |r| <= |changes|
    decreases |changes|
  {
    if |changes| == 0 then []
    else
      var c := changes[|changes| - 1];
      var init := changes[..|changes| - 1];
      assert forall x :: x in init ==> x in changes;
      ActionUpdates(init) + (if UpdateActs(c) then [c] else [])
  }

  function ActionCreates(changes: seq<ImportChange>): (r: seq<ImportChange>)
    ensures forall c :: c in r ==> c in changes && CreateActs(c)
    ensures forall i :: 0 <= i < |r| ==> CreateActs(r[i])
    ensures |r| <= |changes|
    decreases |changes|
  {
    if |changes| == 0 then []
    else
      var c := changes[|changes| - 1];
      var init := changes[..|changes| - 1];
      assert forall x :: x in init ==> x in changes;
      ActionCreates(init) + (if CreateActs(c) then [c] else [])
  }

  /** The ids of the deletions that carry one, in change order. */
  function DeleteIds(changes: seq<ImportChange>): seq<int>
    decreases |changes|
  {
    if |changes| == 0 then []
    else
      var c := changes[|changes| - 1];
      DeleteIds(changes[..|changes| - 1]) + (if c.kind == Delete && c.noteId.Some? then [c.noteId.value] else [])
  }

  function UpdateActions(updates: seq<ImportChange>): (r: seq<Action>)
    requires forall i :: 0 <= i < |updates| ==> UpdateActs(updates[i])
    ensures |r| == |updates|
    ensures forall i :: 0 <= i < |r| ==>
      UpdateActs(updates[i]) && r[i] == UpdateNoteFields(updates[i].noteId.value, updates[i].html.value)
  {
    seq(|updates|, i requires 0 <= i < |updates| && UpdateActs(updates[i]) => UpdateNoteFields(updates[i].noteId.value, updates[i].html.value))
  }

  function AddActions(creates: seq<ImportChange>, deckName: string): (r: seq<Action>)
    requires forall i :: 0 <= i < |creates| ==> CreateActs(creates[i])
    ensures |r| == |creates|
    ensures forall i :: 0 <= i < |r| ==>
      CreateActs(creates[i]) && r[i] == AddNote(deckName, creates[i].note.value.noteType, creates[i].html.value)
  {
    seq(|creates|, i requires 0 <= i < |creates| && CreateActs(creates[i]) =>
      AddNote(deckName, creates[i].note.value.noteType, creates[i].html.value))
  }

  /** The batch `_build_anki_actions` sends: the deck creation if needed,
      one card move for all moved cards, one update per acting update, one
      deletion of all deleted ids, and one note addition per acting
      creation. */
  function Plan(deckName: string, needsCreateDeck: bool, cards: seq<int>, changes: seq<ImportChange>): seq<Action> {
    (if needsCreateDeck then [CreateDeck(deckName)] else [])
    + (if cards != [] then [ChangeDeck(cards, deckName)] else [])
    + UpdateActions(ActionUpdates(changes))
    + (if DeleteIds(changes) != [] then [DeleteNotes(DeleteIds(changes))] else [])
    + AddActions(ActionCreates(changes), deckName)
  }

  /** `list(set(cards))`: the distinct cards. Python leaves their order to
      the set; here they come in order of first occurrence. */
  method Distinct(cards: seq<int>) returns (r: seq<int>)
    ensures forall c :: c in r <==> c in cards
    ensures forall i, j :: 0 <= i < j < |r| ==> r[i] != r[j]
    ensures r == [] <==> cards == []
  {
    r := [];
    var k := 0;
    while k < |cards|
      invariant 0 <= k <= |cards|
      invariant forall c :: c in r <==> c in cards[..k]
      invariant r == [] <==> k == 0
      invariant forall i, j :: 0 <= i < j < |r| ==> r[i] != r[j]
    {
      if cards[k] !in r {
        r := r + [cards[k]];
      }
      assert cards[..k + 1] == cards[..k] + [cards[k]];
      k := k + 1;
    }
    assert cards[..k] == cards;
  }

  method CollectMovedCards(changes: seq<ImportChange>) returns (moved: seq<int>)
    ensures moved == MovedCards(changes)
  {
    moved := [];
    var i := 0;
    while i < |changes|
      invariant 0 <= i <= |changes| && moved == MovedCards(changes[..i])
    {
      if changes[i].kind == Move {
        moved := moved + changes[i].cards;
      }
      assert changes[..i + 1][..i] == changes[..i];
      i := i + 1;
    }
    assert changes[..i] == changes;
  }

  method CollectUpdates(changes: seq<ImportChange>) returns (updates: seq<ImportChange>)
    ensures updates == ActionUpdates(changes)
  {
    updates := [];
    var i := 0;
    while i < |changes|
      invariant 0 <= i <= |changes| && updates == ActionUpdates(changes[..i])
    {
      if UpdateActs(changes[i]) {
        updates := updates + [changes[i]];
      }
      assert changes[..i + 1][..i] == changes[..i];
      i := i + 1;
    }
    assert changes[..i] == changes;
  }

  method CollectDeleteIds(changes: seq<ImportChange>) returns (ids: seq<int>)
    ensures ids == DeleteIds(changes)
  {
    ids := [];
    var i := 0;
    while i < |changes|
      invariant 0 <= i <= |changes| && ids == DeleteIds(changes[..i])
    {
      if changes[i].kind == Delete && changes[i].noteId.Some? {
        ids := ids + [changes[i].noteId.value];
      }
      assert changes[..i + 1][..i] == changes[..i];
      i := i + 1;
    }
    assert changes[..i] == changes;
  }

  method CollectCreates(changes: seq<ImportChange>) returns (creates: seq<ImportChange>)
    ensures creates == ActionCreates(changes)
  {
    creates := [];
    var i := 0;
    while i < |changes|
      invariant 0 <= i <= |changes| && creates == ActionCreates(changes[..i])
    {
      if CreateActs(changes[i]) {
        creates := creates + [changes[i]];
      }
      assert changes[..i + 1][..i] == changes[..i];
      i := i + 1;
    }
    assert changes[..i] == changes;
  }

  /** `_build_anki_actions`: the batch, its tags (one per action, same
      order), the updates and creations that produced actions, and the
      distinct moved cards. */
  method BuildAnkiActions(deckName: string, needsCreateDeck: bool, changes: seq<ImportChange>)
    returns (actions: seq<Action>, tags: seq<Tag>, updates: seq<ImportChange>, creates: seq<ImportChange>,
             cardsToMove: seq<int>)
    ensures actions == Plan(deckName, needsCreateDeck, cardsToMove, changes)
    ensures tags == Tags(actions)
    ensures updates == ActionUpdates(changes) && creates == ActionCreates(changes)
    ensures forall c :: c in cardsToMove <==> c in MovedCards(changes)
    ensures forall i, j :: 0 <= i < j < |cardsToMove| ==> cardsToMove[i] != cardsToMove[j]
  {
    var create := if needsCreateDeck then [CreateDeck(deckName)] else [];
    var moved := CollectMovedCards(changes);
    cardsToMove := [];
    var move := [];
    if moved != [] {
      cardsToMove := Distinct(moved);
      move := [ChangeDeck(cardsToMove, deckName)];
    }
    updates := CollectUpdates(changes);
    var ids := CollectDeleteIds(changes);
    var delete := if ids != [] then [DeleteNotes(ids)] else [];
    creates := CollectCreates(changes);
    actions := create + move + UpdateActions(updates) + delete + AddActions(creates, deckName);
    tags := Tags(actions);
  }

  predicate RankSorted(s: seq<Action>) {
    forall i, j :: 0 <= i < j < |s| ==> Rank(s[i]) <= Rank(s[j])
  }

  predicate RanksWithin(s: seq<Action>, lo: nat, hi: nat) {
    forall i :: 0 <= i < |s| ==> lo <= Rank(s[i]) <= hi
  }

  lemma SortedConcat(a: seq<Action>, b: seq<Action>, lo: nat, m1: nat, m2: nat, hi: nat)
    requires RankSorted(a) && RankSorted(b) && RanksWithin(a, lo, m1) && RanksWithin(b, m2, hi)
    requires lo <= m1 <= m2 <= hi
    ensures RankSorted(a + b) && RanksWithin(a + b, lo, hi)
  {
    var s := a + b;
    forall i, j | 0 <= i < j < |s| ensures Rank(s[i]) <= Rank(s[j]) {
      if j < |a| {
        assert s[i] == a[i] && s[j] == a[j];
      } else if i < |a| {
        assert s[i] == a[i] && s[j] == b[j - |a|];
      } else {
        assert s[i] == b[i - |a|] && s[j] == b[j - |a|];
      }
    }
    forall i | 0 <= i < |s| ensures lo <= Rank(s[i]) <= hi {
      if i < |a| { assert s[i] == a[i]; } else { assert s[i] == b[i - |a|]; }
    }
  }

  lemma SegmentsOrdered(head: seq<Action>, ups: seq<Action>, del: seq<Action>, adds: seq<Action>)
    requires RankSorted(head) && RanksWithin(head, 0, 1)
    requires RanksWithin(ups, 2, 2) && RanksWithin(del, 3, 3) && RanksWithin(adds, 4, 4)
    ensures RankSorted(head + ups + del + adds)
  {
    SortedConcat(head, ups, 0, 1, 2, 2);
    SortedConcat(head + ups, del, 0, 2, 3, 3);
    SortedConcat(head + ups + del, adds, 0, 3, 4, 4);
  }

  /** The batch is ordered by kind: deck creation, card move, updates,
      deletion, additions. */
  lemma PlanOrdered(deckName: string, needsCreateDeck: bool, cards: seq<int>, changes: seq<ImportChange>)
    ensures RankSorted(Plan(deckName, needsCreateDeck, cards, changes))
  {
    UpdatesRanked(ActionUpdates(changes));
    AddsRanked(ActionCreates(changes), deckName);
    PartsOrdered(deckName, needsCreateDeck, cards, UpdateActions(ActionUpdates(changes)), DeleteIds(changes),
                 AddActions(ActionCreates(changes), deckName));
  }

  /** The batch's segments, each of one kind, follow each other in rank. */
  lemma PartsOrdered(deckName: string, needsCreateDeck: bool, cards: seq<int>, ups: seq<Action>, ids: seq<int>,
                     adds: seq<Action>)
    requires RanksWithin(ups, 2, 2) && RanksWithin(adds, 4, 4)
    ensures RankSorted((if needsCreateDeck then [CreateDeck(deckName)] else [])
      + (if cards != [] then [ChangeDeck(cards, deckName)] else [])
      + ups + (if ids != [] then [DeleteNotes(ids)] else []) + adds)
  {
    var create := if needsCreateDeck then [CreateDeck(deckName)] else [];
    var move := if cards != [] then [ChangeDeck(cards, deckName)] else [];
    var del := if ids != [] then [DeleteNotes(ids)] else [];
    SortedConcat(create, move, 0, 0, 1, 1);
    SegmentsOrdered(create + move, ups, del, adds);
  }

  lemma UpdatesRanked(updates: seq<ImportChange>)
    requires forall i :: 0 <= i < |updates| ==> UpdateActs(updates[i])
    ensures RanksWithin(UpdateActions(updates), 2, 2)
  {
  }

  lemma AddsRanked(creates: seq<ImportChange>, deckName: string)
    requires forall i :: 0 <= i < |creates| ==> CreateActs(creates[i])
    ensures RanksWithin(AddActions(creates, deckName), 4, 4)
  {
  }

  /** How many tags of one kind a batch carries. */
  function CountTag(tags: seq<Tag>, t: Tag): nat
    decreases |tags|
  {
    if |tags| == 0 then 0
    else CountTag(tags[..|tags| - 1], t) + (if tags[|tags| - 1] == t then 1 else 0)
  }

  lemma {:induction false} CountTagAppend(a: seq<Tag>, b: seq<Tag>, t: Tag)
    ensures CountTag(a + b, t) == CountTag(a, t) + CountTag(b, t)
    decreases |b|
  {
    if |b| == 0 {
      assert a + b == a;
    } else {
      assert (a + b)[..|a + b| - 1] == a + b[..|b| - 1];
      assert (a + b)[|a + b| - 1] == b[|b| - 1];
      CountTagAppend(a, b[..|b| - 1], t);
    }
  }

  lemma {:induction false} CountTagUniform(tags: seq<Tag>, u: Tag, t: Tag)
    requires forall i :: 0 <= i < |tags| ==> tags[i] == u
    ensures CountTag(tags, t) == if u == t then |tags| else 0
    decreases |tags|
  {
    if |tags| > 0 {
      CountTagUniform(tags[..|tags| - 1], u, t);
    }
  }

  /** How many actions of a batch carry a tag. */
  function CountActions(actions: seq<Action>, t: Tag): nat {
    CountTag(Tags(actions), t)
  }

  lemma CountActionsAppend(a: seq<Action>, b: seq<Action>, t: Tag)
    ensures CountActions(a + b, t) == CountActions(a, t) + CountActions(b, t)
  {
    assert Tags(a + b) == Tags(a) + Tags(b);
    CountTagAppend(Tags(a), Tags(b), t);
  }

  lemma CountActionsUniform(actions: seq<Action>, u: Tag, t: Tag)
    requires forall i :: 0 <= i < |actions| ==> TagOf(actions[i]) == u
    ensures CountActions(actions, t) == if u == t then |actions| else 0
  {
    CountTagUniform(Tags(actions), u, t);
  }

  lemma SegmentsCount(head: seq<Action>, ups: seq<Action>, del: seq<Action>, adds: seq<Action>, t: Tag)
    requires t == UpdateTag || t == CreateTag
    requires forall i :: 0 <= i < |head| ==> TagOf(head[i]) in {CreateDeckTag, ChangeDeckTag}
    requires forall i :: 0 <= i < |ups| ==> TagOf(ups[i]) == UpdateTag
    requires forall i :: 0 <= i < |del| ==> TagOf(del[i]) == DeleteTag
    requires forall i :: 0 <= i < |adds| ==> TagOf(adds[i]) == CreateTag
    ensures CountActions(head + ups + del + adds, t) == if t == UpdateTag then |ups| else |adds|
  {
    HeadCount(head, t);
    CountActionsUniform(ups, UpdateTag, t);
    CountActionsUniform(del, DeleteTag, t);
    CountActionsUniform(adds, CreateTag, t);
    CountActionsAppend(head, ups, t);
    CountActionsAppend(head + ups, del, t);
    CountActionsAppend(head + ups + del, adds, t);
  }

  lemma {:induction false} HeadCount(head: seq<Action>, t: Tag)
    requires t == UpdateTag || t == CreateTag
    requires forall i :: 0 <= i < |head| ==> TagOf(head[i]) in {CreateDeckTag, ChangeDeckTag}
    ensures CountActions(head, t) == 0
    decreases |head|
  {
    if |head| > 0 {
      var init := head[..|head| - 1];
      HeadCount(init, t);
      var last := [head[|head| - 1]];
      CountActionsAppend(init, last, t);
      assert head == init + last;
      var tl := Tags(last);
      assert TagOf(last[0]) == CreateDeckTag || TagOf(last[0]) == ChangeDeckTag;
      assert tl[..0] == [] && tl[0] != t;
      assert CountTag(tl, t) == CountTag(tl[..0], t);
    }
  }

  lemma PlanCount(deckName: string, needsCreateDeck: bool, cards: seq<int>, changes: seq<ImportChange>, t: Tag)
    requires t == UpdateTag || t == CreateTag
    ensures CountActions(Plan(deckName, needsCreateDeck, cards, changes), t)
            == if t == UpdateTag then |ActionUpdates(changes)| else |ActionCreates(changes)|
  {
    var create := if needsCreateDeck then [CreateDeck(deckName)] else [];
    var move := if cards != [] then [ChangeDeck(cards, deckName)] else [];
    var ups := UpdateActions(ActionUpdates(changes));
    var ids := DeleteIds(changes);
    var del := if ids != [] then [DeleteNotes(ids)] else [];
    var adds := AddActions(ActionCreates(changes), deckName);
    var head := create + move;
    assert Plan(deckName, needsCreateDeck, cards, changes) == head + ups + del + adds;
    assert forall i :: 0 <= i < |head| ==> TagOf(head[i]) in {CreateDeckTag, ChangeDeckTag} by {
      assert |create| <= 1 && |move| <= 1;
      assert forall i :: 0 <= i < |create| ==> TagOf(create[i]) == CreateDeckTag;
      assert forall i :: 0 <= i < |move| ==> TagOf(move[i]) == ChangeDeckTag;
    }
    assert forall i :: 0 <= i < |ups| ==> TagOf(ups[i]) == UpdateTag;
    assert forall i :: 0 <= i < |del| ==> TagOf(del[i]) == DeleteTag;
    assert forall i :: 0 <= i < |adds| ==> TagOf(adds[i]) == CreateTag;
    SegmentsCount(head, ups, del, adds, t);
  }

  /** The batch has exactly one update tag per acting update and one create
      tag per acting creation, which is what lets the router index the
      update and creation lists by counting tags. */
  lemma PlanCounts(deckName: string, needsCreateDeck: bool, cards: seq<int>, changes: seq<ImportChange>)
    ensures var tags := Tags(Plan(deckName, needsCreateDeck, cards, changes));
      && CountTag(tags, UpdateTag) == |ActionUpdates(changes)|
      && CountTag(tags, CreateTag) == |ActionCreates(changes)|
  {
    PlanCount(deckName, needsCreateDeck, cards, changes, UpdateTag);
    PlanCount(deckName, needsCreateDeck, cards, changes, CreateTag);
  }

  // ---------------------------------------------------------------- routing the answers

  /** One answer of the batch: `None`, an integer, or anything else (shown
      by its text). */
  datatype Answer = Null | Int(n: int) | Other(text: string)

  function AnswerText(a: Answer): string {
    match a
    case Null => "None"
    case Int(n) => Text.IntToString(n)
    case Other(t) => t
  }

  /** Whether an answer reports a failure for its tag: anything but `None`,
      except for a creation, which fails unless it answers a non-zero
      integer. The deck creation's answer is the new deck's id. */
  predicate Fails(t: Tag, a: Answer) {
    match t
    case CreateDeckTag => false
    case CreateTag => !(a.Int? && a.n != 0)
    case _ => !a.Null?
  }

  /** The notes that received an id, with the id: the k-th creation answer
      goes to the k-th acting creation, and counts when it is a non-zero
      integer and the creation carries its note. */
  function Assigned(tags: seq<Tag>, answers: seq<Answer>, creates: seq<ImportChange>): seq<(FileNote, int)>
    requires |tags| == |answers|
    decreases |tags|
  {
    if |tags| == 0 then []
    else
      var n := |tags| - 1;
      var k := CountTag(tags[..n], CreateTag);
      Assigned(tags[..n], answers[..n], creates)
      + (if tags[n] == CreateTag && answers[n].Int? && answers[n].n != 0 && k < |creates| && creates[k].note.Some?
         then [(creates[k].note.value, answers[n].n)] else [])
  }

  /** `{entity_id}` in an f-string. */
  function IdText(id: Option<int>): string {
    if id.Some? then Text.IntToString(id.value) else "None"
  }

  function FailureCount(tags: seq<Tag>, answers: seq<Answer>): nat
    requires |tags| == |answers|
    decreases |tags|
  {
    if |tags| == 0 then 0
    else FailureCount(tags[..|tags| - 1], answers[..|tags| - 1]) + (if Fails(tags[|tags| - 1], answers[|tags| - 1]) then 1 else 0)
  }

  lemma CountTagPrefix(tags: seq<Tag>, i: nat, t: Tag)
    requires i < |tags|
    ensures CountTag(tags[..i + 1], t) == CountTag(tags[..i], t) + (if tags[i] == t then 1 else 0)
    ensures CountTag(tags[..i + 1], t) <= CountTag(tags, t)
  {
    assert tags[..i + 1][..i] == tags[..i];
    assert tags == tags[..i + 1] + tags[i + 1..];
    CountTagAppend(tags[..i + 1], tags[i + 1..], t);
  }

  /** The error one answer adds, given the change its tag routes it to:
      a card move, an update or the orphan deletion fails on anything but
      `None`; a creation fails unless it answers a non-zero integer and
      carries its note; a deck creation never fails. */
  function AnswerErrors(t: Tag, a: Answer, update: Option<ImportChange>, create: Option<ImportChange>): seq<string> {
    match t
    case CreateDeckTag => []
    case ChangeDeckTag => if a.Null? then [] else ["Failed to move cards: " + AnswerText(a)]
    case UpdateTag =>
      if a.Null? || update.None? then []
      else ["Note " + IdText(update.value.noteId) + " (" + update.value.repr + "): " + AnswerText(a)]
    case DeleteTag => if a.Null? then [] else ["Failed to delete orphaned notes: " + AnswerText(a)]
    case CreateTag =>
      if create.None? || (a.Int? && a.n != 0 && create.value.note.Some?) then []
      else ["Note new (" + create.value.repr + "): " + AnswerText(a)]
  }

  /** The errors of a successful batch, in answer order: the k-th update
      (creation) answer is routed to the k-th update (creation). */
  function RouteErrors(tags: seq<Tag>, answers: seq<Answer>, updates: seq<ImportChange>, creates: seq<ImportChange>)
    : seq<string>
    requires |tags| == |answers|
    decreases |tags|
  {
    if |tags| == 0 then []
    else
      var n := |tags| - 1;
      var u := CountTag(tags[..n], UpdateTag);
      var c := CountTag(tags[..n], CreateTag);
      RouteErrors(tags[..n], answers[..n], updates, creates)
      + AnswerErrors(tags[n], answers[n], RoutedTo(updates, u), RoutedTo(creates, c))
  }

  /** The answer of the last deck creation among the answers, which is the
      deck id `_sync_file` writes back. */
  function LastDeckAnswer(tags: seq<Tag>, answers: seq<Answer>): Option<Answer>
    requires |tags| == |answers|
    decreases |tags|
  {
    if |tags| == 0 then None
    else if tags[|tags| - 1] == CreateDeckTag then Some(answers[|tags| - 1])
    else LastDeckAnswer(tags[..|tags| - 1], answers[..|tags| - 1])
  }

  /** The deck id answer is that of the last `createDeck` among the first
      `m` answers, and there is none exactly when none of them is one. */
  lemma {:induction false} LastDeckAnswerMeans(tags: seq<Tag>, answers: seq<Answer>, m: nat)
    requires m <= |tags| && m <= |answers|
    ensures var d := LastDeckAnswer(tags[..m], answers[..m]);
      && (d.None? <==> forall j :: 0 <= j < m ==> tags[j] != CreateDeckTag)
      && (d.Some? ==> exists j :: 0 <= j < m && tags[j] == CreateDeckTag && d.value == answers[j]
                                 && forall k :: j < k < m ==> tags[k] != CreateDeckTag)
    decreases m
  {
    if m > 0 {
      var d := LastDeckAnswer(tags[..m], answers[..m]);
      assert tags[..m][..m - 1] == tags[..m - 1] && answers[..m][..m - 1] == answers[..m - 1];
      if tags[m - 1] == CreateDeckTag {
        assert d == Some(answers[m - 1]);
      } else {
        LastDeckAnswerMeans(tags, answers, m - 1);
        assert d == LastDeckAnswer(tags[..m - 1], answers[..m - 1]);
        if d.Some? {
          var j :| 0 <= j < m - 1 && tags[j] == CreateDeckTag && d.value == answers[j]
                   && forall k :: j < k < m - 1 ==> tags[k] != CreateDeckTag;
          assert forall k :: j < k < m ==> tags[k] != CreateDeckTag;
        }
      }
    }
  }

  /** The change the k-th answer of a kind is routed to, if there is one. */
  function RoutedTo(changes: seq<ImportChange>, k: nat): Option<ImportChange> {
    if k < |changes| then Some(changes[k]) else None
  }

  /** One more answer extends the routed errors, the failure count and the
      assigned ids by that answer's share. */
  lemma RouteStep(tags: seq<Tag>, answers: seq<Answer>, updates: seq<ImportChange>, creates: seq<ImportChange>, i: nat)
    requires i < |tags| && i < |answers|
    ensures RouteErrors(tags[..i + 1], answers[..i + 1], updates, creates)
      == RouteErrors(tags[..i], answers[..i], updates, creates)
         + AnswerErrors(tags[i], answers[i], RoutedTo(updates, CountTag(tags[..i], UpdateTag)),
                        RoutedTo(creates, CountTag(tags[..i], CreateTag)))
    ensures FailureCount(tags[..i + 1], answers[..i + 1])
      == FailureCount(tags[..i], answers[..i]) + (if Fails(tags[i], answers[i]) then 1 else 0)
    ensures LastDeckAnswer(tags[..i + 1], answers[..i + 1])
      == if tags[i] == CreateDeckTag then Some(answers[i]) else LastDeckAnswer(tags[..i], answers[..i])
    ensures Assigned(tags[..i + 1], answers[..i + 1], creates)
      == Assigned(tags[..i], answers[..i], creates)
         + (var k := CountTag(tags[..i], CreateTag);
            if tags[i] == CreateTag && answers[i].Int? && answers[i].n != 0 && k < |creates| && creates[k].note.Some?
            then [(creates[k].note.value, answers[i].n)] else [])
  {
    assert tags[..i + 1][..i] == tags[..i] && answers[..i + 1][..i] == answers[..i];
  }

  /** The branch of the routing loop for one answer, given the update and
      the creation its tag would route it to: the error it adds, and the
      id link a successful creation adds. */
  method RouteOne(tag: Tag, res: Answer, update: Option<ImportChange>, create: Option<ImportChange>)
    returns (errs: seq<string>, link: seq<(FileNote, int)>)
    requires tag == UpdateTag ==> update.Some?
    requires tag == CreateTag ==> create.Some? && create.value.note.Some?
    ensures errs == AnswerErrors(tag, res, update, create)
    ensures |errs| == if Fails(tag, res) then 1 else 0
    ensures link == if tag == CreateTag && res.Int? && res.n != 0 then [(create.value.note.value, res.n)] else []
  {
    errs, link := [], [];
    if tag == ChangeDeckTag {
      if !res.Null? {
        errs := ["Failed to move cards: " + AnswerText(res)];
      }
    } else if tag == UpdateTag {
      var change := update.value;
      if !res.Null? {
        errs := ["Note " + IdText(change.noteId) + " (" + change.repr + "): " + AnswerText(res)];
      }
    } else if tag == DeleteTag {
      if !res.Null? {
        errs := ["Failed to delete orphaned notes: " + AnswerText(res)];
      }
    } else if tag == CreateTag {
      var change := create.value;
      if res.Int? && res.n != 0 && change.note.Some? {
        link := [(change.note.value, res.n)];
      } else {
        errs := ["Note new (" + change.repr + "): " + AnswerText(res)];
      }
    }
  }

  /** Phase 3 of `_sync_file` after a successful batch: the answers are
      walked with the tags (the shorter decides), an update or creation
      answer is matched to its change by counting, failures become errors,
      created notes get their ids, and the last deck creation's answer is
      the deck id to write. */
  method RouteAnswers(tags: seq<Tag>, answers: seq<Answer>, updates: seq<ImportChange>, creates: seq<ImportChange>)
    returns (errors: seq<string>, linked: seq<(FileNote, int)>, newDeckId: Option<Answer>)
    requires CountTag(tags, UpdateTag) == |updates| && CountTag(tags, CreateTag) == |creates|
    requires forall i :: 0 <= i < |creates| ==> creates[i].note.Some?
    ensures var m := if |tags| < |answers| then |tags| else |answers|;
      && errors == RouteErrors(tags[..m], answers[..m], updates, creates)
      && |errors| == FailureCount(tags[..m], answers[..m])
      && linked == Assigned(tags[..m], answers[..m], creates)
    ensures var m := if |tags| < |answers| then |tags| else |answers|;
      && newDeckId == LastDeckAnswer(tags[..m], answers[..m])
      && (newDeckId.None? <==> forall j :: 0 <= j < m ==> tags[j] != CreateDeckTag)
      && (newDeckId.Some? ==> exists j :: 0 <= j < m && tags[j] == CreateDeckTag && newDeckId.value == answers[j]
                                          && forall k :: j < k < m ==> tags[k] != CreateDeckTag)
  {
    var m := if |tags| < |answers| then |tags| else |answers|;
    errors, linked, newDeckId := [], [], None;
    var updateIdx, createIdx := 0, 0;
    var i := 0;
    while i < m
      invariant 0 <= i <= m
      invariant updateIdx == CountTag(tags[..i], UpdateTag) <= |updates|
      invariant createIdx == CountTag(tags[..i], CreateTag) <= |creates|
      invariant errors == RouteErrors(tags[..i], answers[..i], updates, creates)
      invariant |errors| == FailureCount(tags[..i], answers[..i])
      invariant linked == Assigned(tags[..i], answers[..i], creates)
      invariant newDeckId == LastDeckAnswer(tags[..i], answers[..i])
    {
      CountTagPrefix(tags, i, UpdateTag);
      CountTagPrefix(tags, i, CreateTag);
      RouteStep(tags, answers, updates, creates, i);
      var tag, res := tags[i], answers[i];
      var update, create := RoutedTo(updates, updateIdx), RoutedTo(creates, createIdx);
      var errs, link := RouteOne(tag, res, update, create);
      errors, linked := errors + errs, linked + link;
      if tag == CreateDeckTag {
        newDeckId := Some(res);
      } else if tag == UpdateTag {
        updateIdx := updateIdx + 1;
      } else if tag == CreateTag {
        createIdx := createIdx + 1;
      }
      i := i + 1;
    }
    LastDeckAnswerMeans(tags, answers, m);
  }

  /** When the whole batch fails, every update, every creation, the card
      move and the orphan deletion are each reported once. */
  function BatchFailed(message: string, updates: seq<ImportChange>, creates: seq<ImportChange>,
                       cardsToMove: seq<int>, orphaned: set<int>): (errors: seq<string>)
    ensures |errors| == |updates| + |creates| + (if cardsToMove != [] then 1 else 0) + (if orphaned != {} then 1 else 0)
  {
    seq(|updates|, i requires 0 <= i < |updates| =>
      "Note " + IdText(updates[i].noteId) + " (" + updates[i].repr + "): " + message)
    + seq(|creates|, i requires 0 <= i < |creates| => "Note new (" + creates[i].repr + "): " + message)
    + (if cardsToMove != [] then ["Failed to move cards: " + message] else [])
    + (if orphaned != {} then ["Failed to delete orphaned notes: " + message] else [])
  }

  // ---------------------------------------------------------------- import_collection

  /** The ids a file declares: its deck id, if any, and the ids of its notes. */
  datatype FileIds = FileIds(deckId: Option<int>, noteIds: seq<Option<int>>)

  function Present(ids: seq<Option<int>>): seq<int>
    decreases |ids|
  {
    if |ids| == 0 then []
    else Present(ids[..|ids| - 1]) + (if ids[|ids| - 1].Some? then [ids[|ids| - 1].value] else [])
  }

  /** All deck ids of the files, in file order. */
  function DeckIdSeq(files: seq<FileIds>): seq<int>
    decreases |files|
  {
    if |files| == 0 then []
    else DeckIdSeq(files[..|files| - 1]) + Present([files[|files| - 1].deckId])
  }

  /** All note ids of the files, in file and note order. */
  function NoteIdSeq(files: seq<FileIds>): seq<int>
    decreases |files|
  {
    if |files| == 0 then []
    else NoteIdSeq(files[..|files| - 1]) + Present(files[|files| - 1].noteIds)
  }

  /** The values occurring twice in a list. */
  ghost function Repeated(s: seq<int>): set<int> {
    set i, j | 0 <= i < j < |s| && s[i] == s[j] :: s[i]
  }

  lemma RepeatedSnoc(s: seq<int>, x: int)
    ensures Repeated(s + [x]) == Repeated(s) + (if x in s then {x} else {})
  {
    var t := s + [x];
    forall y | y in Repeated(t) ensures y in Repeated(s) + (if x in s then {x} else {}) {
      var i, j :| 0 <= i < j < |t| && t[i] == t[j] && t[i] == y;
      if j < |s| {
        assert s[i] == s[j];
      } else {
        assert s[i] == x;
      }
    }
    forall y | y in Repeated(s) ensures y in Repeated(t) {
      var i, j :| 0 <= i < j < |s| && s[i] == s[j] && s[i] == y;
      assert t[i] == t[j];
    }
    if x in s {
      var i :| 0 <= i < |s| && s[i] == x;
      assert t[i] == t[|s|];
    }
  }

  /** The message of the abort, over the sorted duplicate ids. */
  function DuplicateMessage(sortedIds: seq<int>): string {
    "Aborting import: " + Text.IntToString(|sortedIds|) + " duplicate ID(s) found across files: "
    + Text.Join(seq(|sortedIds|, i requires 0 <= i < |sortedIds| => Text.IntToString(sortedIds[i])), ", ")
    + ". Each deck/note ID must appear in exactly one file."
  }

  function Id(n: int): int { n }

  /** `sorted(ids)`. */
  method SortedIds(ids: seq<int>) returns (r: seq<int>)
    ensures Sorting.SortedBy(r, Id) && |r| == |ids| && forall x :: x in r <==> x in ids
  {
    r := Sorting.SortBy(ids, Id);
    forall x ensures x in r <==> x in ids {
      assert x in r <==> x in multiset(r);
      assert x in ids <==> x in multiset(ids);
    }
  }

  /** One step of the cross-file check, over a file's deck id or its note
      ids: `seen` holds the ids of that kind met so far (`before`), an id is
      recorded as a duplicate the first time it repeats, and `otherRepeats`
      stands for the repeats of the other kind. */
  method ScanIds(ids: seq<Option<int>>, seen: set<int>, dups: seq<int>, ghost before: seq<int>,
                ghost otherRepeats: set<int>)
    returns (seen': set<int>, dups': seq<int>)
    requires seen == set x | x in before
    requires forall x :: x in dups <==> x in otherRepeats + Repeated(before)
    ensures seen' == set x | x in before + Present(ids)
    ensures forall x :: x in dups' <==> x in otherRepeats + Repeated(before + Present(ids))
  {
    seen', dups' := seen, dups;
    assert before + Present(ids[..0]) == before;
    var j := 0;
    while j < |ids|
      invariant 0 <= j <= |ids|
      invariant seen' == set x | x in before + Present(ids[..j])
      invariant forall x :: x in dups' <==> x in otherRepeats + Repeated(before + Present(ids[..j]))
    {
      assert ids[..j + 1][..j] == ids[..j];
      var id := ids[j];
      if id.Some? {
        assert before + Present(ids[..j + 1]) == (before + Present(ids[..j])) + [id.value];
        RepeatedSnoc(before + Present(ids[..j]), id.value);
        if id.value in seen' && id.value !in dups' {
          dups' := dups' + [id.value];
        }
        seen' := seen' + {id.value};
      } else {
        assert before + Present(ids[..j + 1]) == before + Present(ids[..j]);
      }
      j := j + 1;
    }
    assert ids[..j] == ids;
  }

  /** The cross-file check of `import_collection`: the import aborts, before
      anything is fetched from Anki, when any deck id or any note id occurs
      twice across all files, naming the repeated ids in ascending order;
      otherwise it yields every note id (the ids shielded from orphan
      deletion) and every deck id. */
  method CheckDuplicateIds(files: seq<FileIds>) returns (r: Result<(set<int>, set<int>)>)
    ensures r.Ok? ==> Repeated(DeckIdSeq(files)) + Repeated(NoteIdSeq(files)) == {}
    ensures r.Ok? ==> r.value.0 == (set x | x in NoteIdSeq(files)) && r.value.1 == (set x | x in DeckIdSeq(files))
    ensures r.Err? ==> exists sorted :: (Sorting.SortedBy(sorted, Id) && |sorted| > 0
      && (forall x :: x in sorted <==> x in Repeated(DeckIdSeq(files)) + Repeated(NoteIdSeq(files)))
      && r.error == DuplicateMessage(sorted))
  {
    var deckSeen: set<int> := {};
    var noteSeen: set<int> := {};
    var duplicates: seq<int> := [];
    var i := 0;
    while i < |files|
      invariant 0 <= i <= |files|
      invariant deckSeen == set x | x in DeckIdSeq(files[..i])
      invariant noteSeen == set x | x in NoteIdSeq(files[..i])
      invariant forall x :: x in duplicates <==> x in Repeated(DeckIdSeq(files[..i])) + Repeated(NoteIdSeq(files[..i]))
    {
      var f := files[i];
      assert files[..i + 1][..i] == files[..i];
      ghost var decks := DeckIdSeq(files[..i + 1]);
      assert decks == DeckIdSeq(files[..i]) + Present([f.deckId]);
      assert NoteIdSeq(files[..i + 1]) == NoteIdSeq(files[..i]) + Present(f.noteIds);
      deckSeen, duplicates := ScanIds([f.deckId], deckSeen, duplicates, DeckIdSeq(files[..i]),
                                          Repeated(NoteIdSeq(files[..i])));
      noteSeen, duplicates := ScanIds(f.noteIds, noteSeen, duplicates, NoteIdSeq(files[..i]), Repeated(decks));
      i := i + 1;
    }
    assert files[..i] == files;
    if duplicates != [] {
      var sorted := SortedIds(duplicates);
      return Err(DuplicateMessage(sorted));
    }
    return Ok((noteSeen, deckSeen));
  }

  // ---------------------------------------------------------------- _flush_writes

  /** A deferred file write: the file's text, the deck id to put in it, and
      the ids Anki gave to its notes. */
  datatype PendingWrite = PendingWrite(raw: string, deckIdToWrite: Option<int>, assignments: seq<(FileNote, int)>)

  function IdComment(id: int): string {
    "<!-- note_id: " + Text.IntToString(id) + " -->"
  }

  /** One id assignment: a note that had a (stale) id has its first id
      comment replaced; a note without one gets the comment inserted above
      the first occurrence of its first line. */
  function AssignOne(content: string, a: (FileNote, int)): string {
    if a.0.noteId.Some? then Text.ReplaceFirst(content, IdComment(a.0.noteId.value), IdComment(a.1))
    else Text.ReplaceFirst(content, a.0.firstLine, IdComment(a.1) + "\n" + a.0.firstLine)
  }

  /** The id comment of a new note lands on the line directly above the
      first occurrence of the note's first line, and nothing else changes. */
  lemma AssignOneInserts(content: string, note: FileNote, id: int, i: nat)
    requires note.noteId.None? && Text.Find(content, note.firstLine) == Some(i)
    ensures AssignOne(content, (note, id)) == content[..i] + IdComment(id) + "\n" + content[i..]
  {
    var fl := note.firstLine;
    var pre := IdComment(id) + "\n";
    assert AssignOne(content, (note, id)) == content[..i] + (pre + fl) + content[i + |fl|..];
    InsertInFront(content, pre, fl, i);
  }

  /** Replacing an occurrence of `fl` by `pre + fl` inserts `pre` in front
      of it. */
  lemma InsertInFront(s: string, pre: string, fl: string, i: nat)
    requires Text.OccursAt(s, fl, i)
    ensures s[..i] + (pre + fl) + s[i + |fl|..] == s[..i] + pre + s[i..]
  {
    assert s[i..] == fl + s[i + |fl|..];
  }

  function AssignAll(content: string, assignments: seq<(FileNote, int)>): string
    decreases |assignments|
  {
    if |assignments| == 0 then content
    else AssignOne(AssignAll(content, assignments[..|assignments| - 1]), assignments[|assignments| - 1])
  }

  function DeckIdLine(id: int): string {
    "<!-- deck_id: " + Text.IntToString(id) + " -->\n"
  }

  lemma AssignAllSnoc(content: string, assignments: seq<(FileNote, int)>, i: nat)
    requires i < |assignments|
    ensures AssignAll(content, assignments[..i + 1]) == AssignOne(AssignAll(content, assignments[..i]), assignments[i])
  {
    assert assignments[..i + 1][..i] == assignments[..i];
  }

  /** No two assigned notes share a first line: the condition under which
      `validate_no_duplicate_first_lines` lets the ids be inserted. */
  predicate FirstLinesDistinct(assignments: seq<(FileNote, int)>) {
    forall i, j :: 0 <= i < j < |assignments| ==> assignments[i].0.firstLine != assignments[j].0.firstLine
  }

  /** The refusal of `validate_no_duplicate_first_lines`. */
  const DuplicateFirstLines := "Duplicate first lines prevent note id assignment"

  /** The text `_flush_writes` writes for one pending write, `None` when it
      has nothing to change, or the refusal when two assigned notes share a
      first line. `remaining` is the file's text without its deck-id
      comment. */
  function FlushedContent(w: PendingWrite, remaining: string): (r: Option<Result<string>>)
    ensures r.None? <==> w.deckIdToWrite.None? && w.assignments == []
    ensures r.Some? && r.value.Err? <==> w.assignments != [] && !FirstLinesDistinct(w.assignments)
    ensures w.deckIdToWrite.Some? && w.assignments == [] ==>
      r == Some(Ok(DeckIdLine(w.deckIdToWrite.value) + remaining))
  {
    if w.deckIdToWrite.None? && w.assignments == [] then None
    else if w.assignments != [] && !FirstLinesDistinct(w.assignments) then Some(Err(DuplicateFirstLines))
    else
      var content := if w.deckIdToWrite.Some? then DeckIdLine(w.deckIdToWrite.value) + remaining else w.raw;
      Some(Ok(AssignAll(content, w.assignments)))
  }

  /** The duplicate check, over the first lines seen so far. */
  method FirstLinesUnique(assignments: seq<(FileNote, int)>) returns (ok: bool)
    ensures ok == FirstLinesDistinct(assignments)
  {
    var seen: set<string> := {};
    var i := 0;
    while i < |assignments|
      invariant 0 <= i <= |assignments|
      invariant FirstLinesDistinct(assignments[..i])
      invariant forall x :: x in seen <==> exists j :: 0 <= j < i && assignments[j].0.firstLine == x
    {
      if assignments[i].0.firstLine in seen {
        var j :| 0 <= j < i && assignments[j].0.firstLine == assignments[i].0.firstLine;
        return false;
      }
      seen := seen + {assignments[i].0.firstLine};
      i := i + 1;
    }
    assert assignments[..i] == assignments;
    return true;
  }

  /** One file of `_flush_writes`: the deck id, the duplicate check, then
      the assignment loop. */
  method FlushWrite(w: PendingWrite, remaining: string) returns (r: Option<Result<string>>)
    ensures r == FlushedContent(w, remaining)
  {
    if w.deckIdToWrite.None? && w.assignments == [] {
      return None;
    }
    var content := w.raw;
    if w.deckIdToWrite.Some? {
      content := DeckIdLine(w.deckIdToWrite.value) + remaining;
    }
    if w.assignments != [] {
      var ok := FirstLinesUnique(w.assignments);
      if !ok {
        return Some(Err(DuplicateFirstLines));
      }
    }
    ghost var start := content;
    var i := 0;
    while i < |w.assignments|
      invariant 0 <= i <= |w.assignments|
      invariant content == AssignAll(start, w.assignments[..i])
    {
      AssignAllSnoc(start, w.assignments, i);
      content := AssignOne(content, w.assignments[i]);
      i := i + 1;
    }
    assert w.assignments[..i] == w.assignments;
    return Some(Ok(content));
  }
}
