/** The key-based importer: every note of a deck file is matched to its Anki
    note through the store's key table (recovering a lost mapping from the
    key Anki keeps in the note's `AnkiOps Key` field), classified as a
    creation, update, skip or move, and the deck's notes that no file names
    are deleted. New keys are written back into the files afterwards. */
module ImportNotes {
  import opened Wrappers
  import Text
  import Models
  import Tables
  import Db
  import MarkdownToAnki
  import opened SyncSummaries

  type Note = Models.Note
  type Table = Tables.Table

  /** An HTML field dict, in insertion order. */
  type Fields = seq<(string, string)>

  /** The Anki field that carries a note's key. */
  const KeyField: string := "AnkiOps Key"

  // ---------------------------------------------------------------- dict helpers

  function Names(d: Fields): set<string> {
    set i | 0 <= i < |d| :: d[i].0
  }

  /** `d.get(k, default)`. */
  function Get(d: map<string, string>, k: string, default: string): string {
    if k in d then d[k] else default
  }

  lemma NamesCons(x: (string, string), d: Fields)
    ensures Names([x] + d) == {x.0} + Names(d)
  {
    var e := [x] + d;
    forall n | n in Names(e) ensures n in {x.0} + Names(d) {
      var i :| 0 <= i < |e| && e[i].0 == n;
      if i > 0 { assert e[i] == d[i - 1]; }
    }
    forall n | n in Names(d) ensures n in Names(e) {
      var i :| 0 <= i < |d| && d[i].0 == n;
      assert e[i + 1] == d[i];
    }
    assert e[0] == x;
  }

  /** `d[k] = v`: replaces the value of an existing key in place, or appends. */
  function SetItem(d: Fields, k: string, v: string): Fields
    decreases |d|
  {
    if |d| == 0 then [(k, v)]
    else if d[0].0 == k then [(k, v)] + d[1..]
    else [d[0]] + SetItem(d[1..], k, v)
  }

  /** After `d[k] = v`, `k` holds `v`, every other entry was there before,
      and the keys are the old ones plus `k`. */
  lemma {:induction false} SetItemSets(d: Fields, k: string, v: string)
    ensures var r := SetItem(d, k, v);
      && (k, v) in r
      && (forall p :: p in r ==> p in d || p == (k, v))
      && Names(r) == Names(d) + {k}
    decreases |d|
  {
    if |d| == 0 {
      NamesCons((k, v), []);
    } else {
      assert d == [d[0]] + d[1..];
      NamesCons(d[0], d[1..]);
      if d[0].0 == k {
        NamesCons((k, v), d[1..]);
      } else {
        var rest := SetItem(d[1..], k, v);
        SetItemSets(d[1..], k, v);
        NamesCons(d[0], rest);
      }
    }
  }

  /** `d.setdefault(k, v)`. */
  function SetDefault(d: Fields, k: string, v: string): (r: Fields)
    ensures k in Names(d) ==> r == d
    ensures k !in Names(d) ==> r == d + [(k, v)]
    ensures Names(r) == Names(d) + {k}
  {
    if k in Names(d) then d
    else
      var r := d + [(k, v)];
      assert Names(r) == Names(d) + {k} by {
        assert r[|d|].0 == k;
        assert forall i :: 0 <= i < |d| ==> r[i] == d[i];
      }
      r
  }

  // ---------------------------------------------------------------- _to_html

  function Converted(fields: Fields, convert: string -> string): (r: Fields)
    ensures |r| == |fields|
    ensures forall i :: 0 <= i < |r| ==> r[i] == (fields[i].0, convert(fields[i].1))
  {
    seq(|fields|, i requires 0 <= i < |fields| => (fields[i].0, convert(fields[i].1)))
  }

  /** The defaults `_to_html` adds for the first `n` fields of the
      configuration. */
  function WithDefaults(html: Fields, fields: seq<Models.Field>): (r: Fields)
    ensures html <= r
    ensures forall i :: |html| <= i < |r| ==> r[i].1 == ""
    ensures Names(r) == Names(html) + set i | 0 <= i < |fields| && fields[i].prefix.Some? :: fields[i].name
    decreases |fields|
  {
    if |fields| == 0 then html
    else
      var f := fields[|fields| - 1];
      var init := fields[..|fields| - 1];
      var prior := WithDefaults(html, init);
      assert (set i | 0 <= i < |fields| && fields[i].prefix.Some? :: fields[i].name)
          == (set i | 0 <= i < |init| && init[i].prefix.Some? :: init[i].name)
             + (if f.prefix.Some? then {f.name} else {}) by {
        assert forall i :: 0 <= i < |init| ==> init[i] == fields[i];
      }
      if f.prefix.None? then prior else SetDefault(prior, f.name, "")
  }

  /** What `_to_html` produces for a note under its configuration. */
  function HtmlOf(note: Note, config: Models.NoteTypeConfig, convert: string -> string): Fields {
    WithDefaults(Converted(note.fields, convert), config.fields)
  }

  /** `_to_html`: the note's fields converted, in order, then an empty value
      for each prefixed field of the configuration the note lacks. */
  method ToHtml(note: Note, config: Models.NoteTypeConfig, convert: string -> string) returns (html: Fields)
    ensures html == HtmlOf(note, config, convert)
  {
    html := Converted(note.fields, convert);
    ghost var start := html;
    var i := 0;
    while i < |config.fields|
      invariant 0 <= i <= |config.fields|
      invariant html == WithDefaults(start, config.fields[..i])
    {
      var f := config.fields[i];
      assert config.fields[..i + 1][..i] == config.fields[..i];
      if f.prefix.Some? {
        html := SetDefault(html, f.name, "");
      }
      i := i + 1;
    }
    assert config.fields[..i] == config.fields;
  }

  /** `_to_html`'s result starts with the converted note fields, holds every
      prefixed field of the configuration, and gives the added ones "". */
  lemma ToHtmlCovers(note: Note, config: Models.NoteTypeConfig, convert: string -> string)
    ensures var html := HtmlOf(note, config, convert);
      && html[..|note.fields|] == Converted(note.fields, convert)
      && (forall f :: f in config.fields && f.prefix.Some? ==> f.name in Names(html))
      && (forall i :: |note.fields| <= i < |html| ==> html[i].1 == "")
  {
    var html := HtmlOf(note, config, convert);
    forall f | f in config.fields && f.prefix.Some? ensures f.name in Names(html) {
      var i :| 0 <= i < |config.fields| && config.fields[i] == f;
    }
  }

  // ---------------------------------------------------------------- _html_match

  /** `_html_match`. */
  function HtmlMatch(html: Fields, anki: map<string, string>): bool
    decreases |html|
  {
    if |html| == 0 then true
    else html[0].0 in anki && anki[html[0].0] == html[0].1 && HtmlMatch(html[1..], anki)
  }

  /** `_html_match` holds exactly when every produced field has the same
      value in Anki. */
  lemma {:induction false} HtmlMatchMeans(html: Fields, anki: map<string, string>)
    ensures HtmlMatch(html, anki) <==> forall i :: 0 <= i < |html| ==> html[i].0 in anki && anki[html[i].0] == html[i].1
    decreases |html|
  {
    if |html| > 0 {
      HtmlMatchMeans(html[1..], anki);
      assert forall i :: 1 <= i < |html| ==> html[i] == html[1..][i - 1];
    }
  }

  // ---------------------------------------------------------------- classification

  datatype AnkiNote = AnkiNote(noteType: string, fields: map<string, string>, cardIds: seq<int>)

  /** What Anki answers while one file is classified: the deck name of each
      card whose info is known, the ids `find_notes_by_ankiops_key` returns
      for a key, and what `fetch_notes_info` returns for a single id. */
  datatype Env = Env(deckName: string, cardDecks: map<int, Option<string>>, found: map<string, seq<int>>,
                     fetched: map<int, AnkiNote>, onlyAddNew: bool)

  /** A change with the context entries this importer attaches: the note,
      its HTML fields and its key for a creation, the HTML fields of an
      update, the cards of a move. */
  datatype NoteChange = NoteChange(kind: ChangeType, noteId: Option<int>, repr: string, note: Option<Note>,
                           html: Fields, key: Option<string>, cards: seq<int>)

  /** What one note contributes to the file's lists, with the key table and
      the Anki notes after it, and whether a fresh key was drawn. */
  datatype Step = Step(table: Table, anki: map<int, AnkiNote>, creates: seq<NoteChange>, updates: seq<NoteChange>,
                       skips: seq<NoteChange>, moves: seq<NoteChange>, errors: seq<string>, keyUsed: bool)

  predicate Truthy(id: Option<int>) { id.Some? && id.value != 0 }

  /** Python truthiness of an optional key. */
  predicate HasKey(note: Note) { note.noteKey.Some? && note.noteKey.value != "" }

  /** `get_note_id`, then the recovery through the key Anki keeps: the id
      and the key table afterwards. */
  function ResolveId(t: Table, key: string, found: map<string, seq<int>>): (Option<int>, Table)
  {
    if key in t then (Some(t[key]), t)
    else if key in found && |found[key]| > 0 then (Some(found[key][0]), Tables.Put(t, key, found[key][0]))
    else (None, t)
  }

  /** The Anki note a resolved id leads to, fetched singly when the batch
      fetch missed it, with the Anki notes afterwards. */
  function AnkiNoteOf(id: Option<int>, anki: map<int, AnkiNote>, fetched: map<int, AnkiNote>)
    : (Option<AnkiNote>, map<int, AnkiNote>)
  {
    if !Truthy(id) then (None, anki)
    else if id.value in anki then (Some(anki[id.value]), anki)
    else if id.value in fetched then (Some(fetched[id.value]), anki[id.value := fetched[id.value]])
    else (None, anki)
  }

  /** The fields an update sends: the note's HTML fields, plus its key
      when the key Anki keeps differs from the file's. */
  function KeyedHtml(html: Fields, a: AnkiNote, key: string): Fields {
    if Get(a.fields, KeyField, "") != key then SetItem(html, KeyField, key) else html
  }

  function CreateOf(note: Note, html: Fields, key: string): NoteChange {
    NoteChange(Create, None, Models.Identifier(note), Some(note), html, Some(key), [])
  }

  /** The loop body of `_sync_file` for a note with a key. */
  function KeyedStep(t: Table, anki: map<int, AnkiNote>, note: Note, key: string, html: Fields, env: Env): Step {
    var (id, t1) := ResolveId(t, key, env.found);
    ResolvedStep(t1, id, anki, note, key, html, env)
  }

  /** The rest of the loop body once the note's id is resolved. */
  function ResolvedStep(t1: Table, id: Option<int>, anki: map<int, AnkiNote>, note: Note, key: string, html: Fields,
                        env: Env): Step
  {
    var ident := Models.Identifier(note);
    if Truthy(id) && env.onlyAddNew then
      Step(t1, anki, [], [], [NoteChange(Skip, id, ident, None, [], None, [])], [], [], false)
    else
      var (a, anki1) := AnkiNoteOf(id, anki, env.fetched);
      if a.None? then Step(t1, anki1, [CreateOf(note, html, key)], [], [], [], [], false)
      else
        var moved := MarkdownToAnki.MoveCards(a.value.cardIds, env.cardDecks, env.deckName);
        var mv := if moved == [] then [] else [NoteChange(Move, id, ident, None, [], None, moved)];
        if a.value.noteType != note.noteType then
          Step(t1, anki1, [], [], [], mv, ["Note type mismatch for " + ident], false)
        else
          var sent := KeyedHtml(html, a.value, key);
          if HtmlMatch(sent, a.value.fields) then
            Step(t1, anki1, [], [], [NoteChange(Skip, id, ident, None, [], None, [])], mv, [], false)
          else
            Step(t1, anki1, [], [NoteChange(Update, id, ident, None, sent, None, [])], [], mv, [], false)
  }

  /** The loop body of `_sync_file`: a note without a key is created under
      `newKey`, the next key the store generates. */
  function NoteStep(t: Table, anki: map<int, AnkiNote>, note: Note, html: Fields, env: Env, newKey: string): Step {
    if HasKey(note) then KeyedStep(t, anki, note, note.noteKey.value, html, env)
    else Step(t, anki, [CreateOf(note, html, newKey)], [], [], [], [], true)
  }

  /** The outcome of a keyed note, case by case. */
  lemma KeyedStepShape(t: Table, anki: map<int, AnkiNote>, note: Note, key: string, html: Fields, env: Env)
    ensures var s := KeyedStep(t, anki, note, key, html, env);
      && |s.creates| + |s.updates| + |s.skips| + |s.errors| == 1
      && |s.moves| <= 1 && !s.keyUsed
      && (forall c :: c in s.creates ==> c == CreateOf(note, html, key))
  {
    var (id, t1) := ResolveId(t, key, env.found);
    if !(Truthy(id) && env.onlyAddNew) {
      var (a, anki1) := AnkiNoteOf(id, anki, env.fetched);
      if a.Some? && a.value.noteType == note.noteType {
        var sent := KeyedHtml(html, a.value, key);
        if HtmlMatch(sent, a.value.fields) {
        } else {
        }
      }
    }
  }

  /** The outcome of a note: one creation, update or skip, or one error,
      possibly with a move; a fresh key is drawn exactly for a keyless
      note, and a keyed note's creation keeps its key. */
  lemma NoteStepShape(t: Table, anki: map<int, AnkiNote>, note: Note, html: Fields, env: Env, newKey: string)
    ensures var s := NoteStep(t, anki, note, html, env, newKey);
      && |s.creates| + |s.updates| + |s.skips| + |s.errors| == 1
      && |s.moves| <= 1
      && (s.keyUsed <==> !HasKey(note))
      && (!HasKey(note) ==> s.creates == [CreateOf(note, html, newKey)] && s.table == t && s.anki == anki)
      && (HasKey(note) ==> forall c :: c in s.creates ==> c == CreateOf(note, html, note.noteKey.value))
  {
    if HasKey(note) {
      KeyedStepShape(t, anki, note, note.noteKey.value, html, env);
    }
  }

  /** A keyed note whose id cannot be resolved, or whose Anki note cannot be
      found, is created under its own key. */
  lemma UnresolvedCreates(t: Table, anki: map<int, AnkiNote>, note: Note, html: Fields, env: Env, newKey: string)
    requires HasKey(note)
    requires var id := ResolveId(t, note.noteKey.value, env.found).0;
      !(Truthy(id) && env.onlyAddNew) && AnkiNoteOf(id, anki, env.fetched).0.None?
    ensures NoteStep(t, anki, note, html, env, newKey).creates == [CreateOf(note, html, note.noteKey.value)]
  {
  }

  /** A type mismatch is an error and nothing else, except a move of the
      note's cards that sit in other decks. */
  lemma MismatchOnlyErrs(t: Table, anki: map<int, AnkiNote>, note: Note, html: Fields, env: Env, newKey: string)
    requires HasKey(note)
    ensures var s := NoteStep(t, anki, note, html, env, newKey);
      s.errors != [] ==>
        && s.creates == [] && s.updates == [] && s.skips == []
        && s.errors == ["Note type mismatch for " + Models.Identifier(note)]
        && (var id := ResolveId(t, note.noteKey.value, env.found).0;
            var a := AnkiNoteOf(id, anki, env.fetched).0;
            a.Some? && a.value.noteType != note.noteType)
  {
  }

  /** A known note of the same type (when all notes are wanted) is skipped
      exactly when every field it would send already has that value in
      Anki, and is otherwise updated with those fields. */
  lemma SkipIffEqual(t: Table, anki: map<int, AnkiNote>, note: Note, html: Fields, env: Env, newKey: string)
    requires HasKey(note) && !env.onlyAddNew
    requires var a := AnkiNoteOf(ResolveId(t, note.noteKey.value, env.found).0, anki, env.fetched).0;
      a.Some? && a.value.noteType == note.noteType
    ensures var s := NoteStep(t, anki, note, html, env, newKey);
      var a := AnkiNoteOf(ResolveId(t, note.noteKey.value, env.found).0, anki, env.fetched).0.value;
      var sent := KeyedHtml(html, a, note.noteKey.value);
      && (s.skips != [] <==> forall i :: 0 <= i < |sent| ==> sent[i].0 in a.fields && a.fields[sent[i].0] == sent[i].1)
      && (s.updates != [] <==> s.skips == [])
      && (s.updates != [] ==> s.updates[0].html == sent)
  {
    var a := AnkiNoteOf(ResolveId(t, note.noteKey.value, env.found).0, anki, env.fetched).0.value;
    HtmlMatchMeans(KeyedHtml(html, a, note.noteKey.value), a.fields);
  }

  /** When the key Anki keeps differs from the file's, the key is sent with
      the fields, which forces an update. */
  lemma KeyMismatchForcesUpdate(t: Table, anki: map<int, AnkiNote>, note: Note, html: Fields, env: Env, newKey: string)
    requires HasKey(note) && !env.onlyAddNew
    requires var a := AnkiNoteOf(ResolveId(t, note.noteKey.value, env.found).0, anki, env.fetched).0;
      a.Some? && a.value.noteType == note.noteType && Get(a.value.fields, KeyField, "") != note.noteKey.value
    ensures var s := NoteStep(t, anki, note, html, env, newKey);
      s.updates != [] && (KeyField, note.noteKey.value) in s.updates[0].html
  {
    var key := note.noteKey.value;
    var a := AnkiNoteOf(ResolveId(t, key, env.found).0, anki, env.fetched).0.value;
    var sent := KeyedHtml(html, a, key);
    SetItemSets(html, KeyField, key);
    HtmlMatchMeans(sent, a.fields);
    assert (KeyField, key) in sent;
    var i :| 0 <= i < |sent| && sent[i] == (KeyField, key);
    assert !HtmlMatch(sent, a.fields);
  }

  /** A lost mapping that Anki's key field recovers is written to the key
      table; otherwise the table is left as it was. */
  lemma RecoveryRecorded(t: Table, anki: map<int, AnkiNote>, note: Note, html: Fields, env: Env, newKey: string)
    requires HasKey(note)
    ensures var key := note.noteKey.value;
      var s := NoteStep(t, anki, note, html, env, newKey);
      && (key !in t && key in env.found && |env.found[key]| > 0 ==> s.table == Tables.Put(t, key, env.found[key][0]))
      && (key in t || !(key in env.found && |env.found[key]| > 0) ==> s.table == t)
  {
  }

  // ---------------------------------------------------------------- the notes of a file

  /** The lists `_sync_file` builds, with the key table and Anki notes as
      they stand, and how many keys were generated. */
  datatype Acc = Acc(table: Table, anki: map<int, AnkiNote>, creates: seq<NoteChange>, updates: seq<NoteChange>,
                     skips: seq<NoteChange>, moves: seq<NoteChange>, cards: seq<int>, errors: seq<string>,
                     used: nat)

  function MovedOf(s: Step): seq<int> {
    if s.moves == [] then [] else s.moves[0].cards
  }

  function Add(acc: Acc, s: Step): Acc {
    Acc(s.table, s.anki, acc.creates + s.creates, acc.updates + s.updates, acc.skips + s.skips,
        acc.moves + s.moves, acc.cards + MovedOf(s), acc.errors + s.errors,
        acc.used + if s.keyUsed then 1 else 0)
  }

  /** One note's classification, given the key table, the Anki notes, the
      note, its HTML fields, Anki's answers and the key to generate. */
  type Stepper = (Table, map<int, AnkiNote>, Note, Fields, Env, string) -> Step

  /** The loop of `_sync_file` over the notes with `step` as its body,
      `htmls` being the notes' HTML fields and `keys(j)` the `j`-th key the
      store generates. */
  function Fold(t: Table, anki: map<int, AnkiNote>, notes: seq<Note>, htmls: seq<Fields>, env: Env,
                keys: nat -> string, step: Stepper): Acc
    requires |htmls| == |notes|
    decreases |notes|
  {
    if |notes| == 0 then Acc(t, anki, [], [], [], [], [], [], 0)
    else
      var n := |notes| - 1;
      var acc := Fold(t, anki, notes[..n], htmls[..n], env, keys, step);
      Add(acc, step(acc.table, acc.anki, notes[n], htmls[n], env, keys(acc.used)))
  }

  /** The loop of `_sync_file` over a file's notes. */
  function Classify(t: Table, anki: map<int, AnkiNote>, notes: seq<Note>, htmls: seq<Fields>, env: Env,
                    keys: nat -> string): Acc
    requires |htmls| == |notes|
  {
    Fold(t, anki, notes, htmls, env, keys, NoteStep)
  }

  function KeylessCount(notes: seq<Note>): nat
    decreases |notes|
  {
    if |notes| == 0 then 0
    else KeylessCount(notes[..|notes| - 1]) + if HasKey(notes[|notes| - 1]) then 0 else 1
  }

  /** What every outcome of a note satisfies (`NoteStepShape`). */
  predicate StepOk(s: Step, note: Note, html: Fields, newKey: string) {
    && |s.creates| + |s.updates| + |s.skips| + |s.errors| == 1
    && |s.moves| <= 1
    && (s.keyUsed <==> !HasKey(note))
    && (forall c :: c in s.creates ==> c == CreateOf(note, html, if HasKey(note) then note.noteKey.value else newKey))
  }

  lemma AllStepsOk()
    ensures forall t, anki, note, html, env, newKey ::
      StepOk(NoteStep(t, anki, note, html, env, newKey), note, html, newKey)
  {
    forall t, anki, note, html, env, newKey
      ensures StepOk(NoteStep(t, anki, note, html, env, newKey), note, html, newKey)
    {
      NoteStepShape(t, anki, note, html, env, newKey);
    }
  }

  lemma {:induction false} FoldCounts(t: Table, anki: map<int, AnkiNote>, notes: seq<Note>, htmls: seq<Fields>,
                                      env: Env, keys: nat -> string, step: Stepper)
    requires |htmls| == |notes|
    requires forall t, anki, note, html, env, newKey :: StepOk(step(t, anki, note, html, env, newKey), note, html, newKey)
    ensures var acc := Fold(t, anki, notes, htmls, env, keys, step);
      && |acc.creates| + |acc.updates| + |acc.skips| + |acc.errors| == |notes|
      && |acc.moves| <= |notes|
      && acc.used == KeylessCount(notes)
    decreases |notes|
  {
    if |notes| > 0 {
      var n := |notes| - 1;
      FoldCounts(t, anki, notes[..n], htmls[..n], env, keys, step);
    }
  }

  /** Every note lands in exactly one of creations, updates, skips and
      errors, with at most one move, and one key is generated per keyless
      note. */
  lemma ClassifyCounts(t: Table, anki: map<int, AnkiNote>, notes: seq<Note>, htmls: seq<Fields>,
                       env: Env, keys: nat -> string)
    requires |htmls| == |notes|
    ensures var acc := Classify(t, anki, notes, htmls, env, keys);
      && |acc.creates| + |acc.updates| + |acc.skips| + |acc.errors| == |notes|
      && |acc.moves| <= |notes|
      && acc.used == KeylessCount(notes)
  {
    AllStepsOk();
    FoldCounts(t, anki, notes, htmls, env, keys, NoteStep);
  }

  /** A creation carries its note and the key it is to be stored under:
      the file's own key for a keyed note, one of the generated ones
      otherwise. */
  predicate CreationOk(c: NoteChange, used: nat, keys: nat -> string) {
    && c.kind == Create && c.note.Some? && c.key.Some?
    && (HasKey(c.note.value) ==> c.key == c.note.value.noteKey)
    && (!HasKey(c.note.value) ==> exists j :: 0 <= j < used && c.key == Some(keys(j)))
  }

  lemma {:induction false} FoldCreations(t: Table, anki: map<int, AnkiNote>, notes: seq<Note>, htmls: seq<Fields>,
                                         env: Env, keys: nat -> string, step: Stepper)
    requires |htmls| == |notes|
    requires forall t, anki, note, html, env, newKey :: StepOk(step(t, anki, note, html, env, newKey), note, html, newKey)
    ensures var acc := Fold(t, anki, notes, htmls, env, keys, step);
      forall c :: c in acc.creates ==> CreationOk(c, acc.used, keys)
    decreases |notes|
  {
    if |notes| > 0 {
      var n := |notes| - 1;
      var acc := Fold(t, anki, notes[..n], htmls[..n], env, keys, step);
      FoldCreations(t, anki, notes[..n], htmls[..n], env, keys, step);
      assert var a2 := Fold(t, anki, notes[..n], htmls[..n], env, keys, step);
        forall c :: c in a2.creates ==> CreationOk(c, a2.used, keys);
      var st := step(acc.table, acc.anki, notes[n], htmls[n], env, keys(acc.used));
      assert StepOk(st, notes[n], htmls[n], keys(acc.used));
      var next := Add(acc, st);
      forall c | c in next.creates ensures CreationOk(c, next.used, keys) {
        if c in acc.creates {
          assert CreationOk(c, acc.used, keys);
          if !HasKey(c.note.value) {
            var j :| 0 <= j < acc.used && c.key == Some(keys(j));
          }
        } else {
          assert c in st.creates;
        }
      }
    }
  }

  /** Every creation of a file carries its note and the key it is stored
      under: the note's own key, or a key generated for it. */
  lemma ClassifyCreations(t: Table, anki: map<int, AnkiNote>, notes: seq<Note>, htmls: seq<Fields>,
                          env: Env, keys: nat -> string)
    requires |htmls| == |notes|
    ensures var acc := Classify(t, anki, notes, htmls, env, keys);
      forall c :: c in acc.creates ==> CreationOk(c, acc.used, keys)
  {
    AllStepsOk();
    FoldCreations(t, anki, notes, htmls, env, keys, NoteStep);
    assert var acc := Fold(t, anki, notes, htmls, env, keys, NoteStep);
      forall c :: c in acc.creates ==> CreationOk(c, acc.used, keys);
  }

  /** `db_port.get_note_id` and the recovery for one note, then the rest of
      its classification. */
  method SyncNote(db: Db.SqliteDb, anki: map<int, AnkiNote>, note: Note, html: Fields, env: Env, newKey: string)
    returns (s: Step)
    requires db.Valid()
    modifies db
    ensures db.Valid()
    ensures s == NoteStep(old(db.store.notes), anki, note, html, env, newKey)
    ensures db.store == old(db.store).(notes := s.table)
    ensures db.txDepth == old(db.txDepth) && db.events == old(db.events) && db.snapshot == old(db.snapshot)
  {
    if !HasKey(note) {
      return Step(db.store.notes, anki, [CreateOf(note, html, newKey)], [], [], [], [], true);
    }
    var key := note.noteKey.value;
    var id := db.GetNoteId(key);
    if id.None? && key in env.found && |env.found[key]| > 0 {
      id := Some(env.found[key][0]);
      db.SetNote(key, id.value);
    }
    assert ResolveId(old(db.store.notes), key, env.found) == (id, db.store.notes);
    s := ResolvedStep(db.store.notes, id, anki, note, key, html, env);
  }

  /** The loop of `_sync_file` over a file's notes. */
  method SyncNotes(db: Db.SqliteDb, anki: map<int, AnkiNote>, notes: seq<Note>, htmls: seq<Fields>, env: Env,
                   keys: nat -> string) returns (acc: Acc)
    requires db.Valid() && |htmls| == |notes|
    modifies db
    ensures db.Valid()
    ensures acc == Classify(old(db.store.notes), anki, notes, htmls, env, keys)
    ensures db.store == old(db.store).(notes := acc.table)
    ensures db.txDepth == old(db.txDepth) && db.events == old(db.events) && db.snapshot == old(db.snapshot)
  {
    acc := Acc(db.store.notes, anki, [], [], [], [], [], [], 0);
    var i := 0;
    while i < |notes|
      invariant 0 <= i <= |notes|
      invariant db.Valid()
      invariant acc == Fold(old(db.store.notes), anki, notes[..i], htmls[..i], env, keys, NoteStep)
      invariant db.store == old(db.store).(notes := acc.table)
      invariant db.txDepth == old(db.txDepth) && db.events == old(db.events) && db.snapshot == old(db.snapshot)
    {
      assert notes[..i + 1][..i] == notes[..i];
      assert htmls[..i + 1][..i] == htmls[..i];
      var s := SyncNote(db, acc.anki, notes[i], htmls[i], env, keys(acc.used));
      acc := Add(acc, s);
      i := i + 1;
    }
    assert notes[..i] == notes && htmls[..i] == htmls;
  }

  // ---------------------------------------------------------------- orphans

  /** `md_anki_ids`: the truthy ids the key table gives the file's keyed
      notes. */
  function MarkdownIds(t: Table, notes: seq<Note>): set<int> {
    set n | n in notes && HasKey(n) && n.noteKey.value in t && t[n.noteKey.value] != 0 :: t[n.noteKey.value]
  }

  /** `g_ids`: the truthy ids the key table gives the collection's keys. */
  function GlobalIds(t: Table, globalKeys: set<string>): set<int> {
    set k | k in globalKeys && k in t && t[k] != 0 :: t[k]
  }

  lemma MarkdownIdsSnoc(t: Table, notes: seq<Note>, n: Note)
    ensures MarkdownIds(t, notes + [n]) == MarkdownIds(t, notes)
      + if HasKey(n) && n.noteKey.value in t && t[n.noteKey.value] != 0 then {t[n.noteKey.value]} else {}
  {
    assert forall m :: m in notes + [n] <==> m in notes || m == n;
  }

  /** The loop that collects `md_anki_ids` through `get_note_id`. */
  method CollectMarkdownIds(db: Db.SqliteDb, notes: seq<Note>) returns (ids: set<int>)
    requires db.Valid()
    ensures ids == MarkdownIds(db.store.notes, notes)
  {
    ids := {};
    var i := 0;
    while i < |notes|
      invariant 0 <= i <= |notes|
      invariant ids == MarkdownIds(db.store.notes, notes[..i])
    {
      var n := notes[i];
      MarkdownIdsSnoc(db.store.notes, notes[..i], n);
      assert notes[..i + 1] == notes[..i] + [n];
      if HasKey(n) {
        var nid := db.GetNoteId(n.noteKey.value);
        if Truthy(nid) {
          ids := ids + {nid.value};
        }
      }
      i := i + 1;
    }
    assert notes[..i] == notes;
  }

  /** The deck's note ids that are neither in the file nor held by any key
      of the collection, without repeats, in the order Anki lists them. */
  function OrphanIds(deckIds: seq<int>, excluded: set<int>): (r: seq<int>)
    ensures forall x :: x in r <==> x in deckIds && x != 0 && x !in excluded
    ensures forall i, j :: 0 <= i < j < |r| ==> r[i] != r[j]
    decreases |deckIds|
  {
    if |deckIds| == 0 then []
    else
      var x := deckIds[|deckIds| - 1];
      var init := deckIds[..|deckIds| - 1];
      assert deckIds == init + [x];
      var prior := OrphanIds(init, excluded);
      if x == 0 || x in excluded || x in prior then prior else prior + [x]
  }

  function DeleteOf(nid: int, repr: string): NoteChange {
    NoteChange(Delete, Some(nid), repr, None, [], None, [])
  }

  /** How a deletion names its note: by the key the table gives its id, or
      by the id when no (non-empty) key does. */
  ghost function DeleteRepr(t: Table, nid: int): string
    requires Tables.Injective(t)
  {
    match Tables.KeyOf(t, nid)
    case Some(k) => if k != "" then "note_key: " + k else "note_id: " + Text.IntToString(nid)
    case None => "note_id: " + Text.IntToString(nid)
  }

  ghost function Deletes(t: Table, ids: seq<int>): (r: seq<NoteChange>)
    requires Tables.Injective(t)
  {
    seq(|ids|, i requires 0 <= i < |ids| => DeleteOf(ids[i], DeleteRepr(t, ids[i])))
  }

  /** The deletions of `_sync_file`: one per orphaned id, named through
      `get_note_key`. */
  method OrphanDeletes(db: Db.SqliteDb, deckIds: seq<int>, excluded: set<int>) returns (deletes: seq<NoteChange>)
    requires db.Valid()
    ensures Tables.Injective(db.store.notes)
    ensures deletes == Deletes(db.store.notes, OrphanIds(deckIds, excluded))
  {
    var ids := OrphanIds(deckIds, excluded);
    deletes := [];
    var i := 0;
    while i < |ids|
      invariant 0 <= i <= |ids|
      invariant deletes == Deletes(db.store.notes, ids[..i])
    {
      var key := db.GetNoteKey(ids[i]);
      var repr := if key.Some? && key.value != "" then "note_key: " + key.value
                  else "note_id: " + Text.IntToString(ids[i]);
      deletes := deletes + [DeleteOf(ids[i], repr)];
      i := i + 1;
    }
    assert ids[..i] == ids;
  }

  // ---------------------------------------------------------------- linking created notes

  /** The key a creation is to be stored under. */
  function StoredKey(c: NoteChange): string {
    match c.key
    case Some(k) => k
    case None => ""
  }

  function Min(a: nat, b: nat): nat { if a <= b then a else b }

  /** `zip(created_ids, creates)`, as the key table writes it. */
  function Links(creates: seq<NoteChange>, ids: seq<int>): (r: seq<(string, int)>)
    ensures |r| == Min(|creates|, |ids|)
    ensures forall i :: 0 <= i < |r| ==> r[i] == (StoredKey(creates[i]), ids[i])
  {
    seq(Min(|creates|, |ids|), i requires 0 <= i < Min(|creates|, |ids|) => (StoredKey(creates[i]), ids[i]))
  }

  /** The key table after `set_note` for every link, in order. */
  function LinkAll(t: Table, links: seq<(string, int)>): Table
    decreases |links|
  {
    if |links| == 0 then t
    else Tables.Put(LinkAll(t, links[..|links| - 1]), links[|links| - 1].0, links[|links| - 1].1)
  }

  lemma LinkAllSnoc(t: Table, links: seq<(string, int)>, i: nat)
    requires i < |links|
    ensures LinkAll(t, links[..i + 1]) == Tables.Put(LinkAll(t, links[..i]), links[i].0, links[i].1)
  {
    assert links[..i + 1][..i] == links[..i];
  }

  /** A link that no later link overrides (by key or by id) holds in the
      final table, and a mapping no link touches survives. */
  lemma {:induction false} LinkAllHolds(t: Table, links: seq<(string, int)>)
    ensures forall i :: (0 <= i < |links| && (forall j :: i < j < |links| ==> links[j].0 != links[i].0 && links[j].1 != links[i].1)
                         ==> links[i].0 in LinkAll(t, links) && LinkAll(t, links)[links[i].0] == links[i].1)
    ensures forall k :: (k in t && (forall j :: 0 <= j < |links| ==> links[j].0 != k && links[j].1 != t[k])
                         ==> k in LinkAll(t, links) && LinkAll(t, links)[k] == t[k])
    decreases |links|
  {
    if |links| > 0 {
      var n := |links| - 1;
      var init := links[..n];
      LinkAllHolds(t, init);
      forall i | 0 <= i < n && (forall j :: i < j < |links| ==> links[j].0 != links[i].0 && links[j].1 != links[i].1)
        ensures links[i].0 in LinkAll(t, links) && LinkAll(t, links)[links[i].0] == links[i].1
      {
        assert init[i] == links[i];
        assert forall j :: i < j < |init| ==> init[j] == links[j];
      }
      forall k | k in t && (forall j :: 0 <= j < |links| ==> links[j].0 != k && links[j].1 != t[k])
        ensures k in LinkAll(t, links) && LinkAll(t, links)[k] == t[k]
      {
        assert forall j :: 0 <= j < |init| ==> init[j] == links[j];
      }
    }
  }

  /** Each created id given to its creation. */
  function Linked(creates: seq<NoteChange>, ids: seq<int>): (r: seq<NoteChange>)
    ensures |r| == |creates|
    ensures forall i :: 0 <= i < |r| ==> r[i] == if i < |ids| then creates[i].(noteId := Some(ids[i])) else creates[i]
  {
    seq(|creates|, i requires 0 <= i < |creates| => if i < |ids| then creates[i].(noteId := Some(ids[i])) else creates[i])
  }

  function NoteOf(c: NoteChange, default: Note): Note {
    match c.note
    case Some(n) => n
    case None => default
  }

  /** `key_assignments`: each created note with its key. */
  function Assignments(creates: seq<NoteChange>, ids: seq<int>, default: Note): (r: seq<(Note, string)>)
    ensures |r| == Min(|creates|, |ids|)
    ensures forall i :: 0 <= i < |r| ==> r[i] == (NoteOf(creates[i], default), StoredKey(creates[i]))
  {
    seq(Min(|creates|, |ids|), i requires 0 <= i < Min(|creates|, |ids|) =>
      (NoteOf(creates[i], default), StoredKey(creates[i])))
  }

  /** The `set_note` calls of the linking loop, in order. */
  method StoreLinks(db: Db.SqliteDb, links: seq<(string, int)>)
    requires db.Valid()
    modifies db
    ensures db.Valid()
    ensures db.store == old(db.store).(notes := LinkAll(old(db.store.notes), links))
    ensures db.txDepth == old(db.txDepth) && db.events == old(db.events) && db.snapshot == old(db.snapshot)
  {
    var i := 0;
    while i < |links|
      invariant 0 <= i <= |links|
      invariant db.Valid()
      invariant db.store == old(db.store).(notes := LinkAll(old(db.store.notes), links[..i]))
      invariant db.txDepth == old(db.txDepth) && db.events == old(db.events) && db.snapshot == old(db.snapshot)
    {
      db.SetNote(links[i].0, links[i].1);
      LinkAllSnoc(old(db.store.notes), links, i);
      i := i + 1;
    }
    assert links[..i] == links;
  }

  /** The linking loop of `_sync_file`: `set_note` for each created id and
      its creation's key, the id recorded on the creation, and the key
      assignment queued for the file. */
  method LinkCreated(db: Db.SqliteDb, ids: seq<int>, creates: seq<NoteChange>, ghost default: Note)
    returns (linked: seq<NoteChange>, assignments: seq<(Note, string)>)
    requires db.Valid()
    requires forall c :: c in creates ==> c.note.Some?
    modifies db
    ensures db.Valid()
    ensures db.store == old(db.store).(notes := LinkAll(old(db.store.notes), Links(creates, ids)))
    ensures db.txDepth == old(db.txDepth) && db.events == old(db.events) && db.snapshot == old(db.snapshot)
    ensures linked == Linked(creates, ids)
    ensures assignments == Assignments(creates, ids, default)
  {
    StoreLinks(db, Links(creates, ids));
    linked := Linked(creates, ids);
    var m := Min(|creates|, |ids|);
    assignments := seq(m, i requires 0 <= i < m => (creates[i].note.value, StoredKey(creates[i])));
  }

  // ---------------------------------------------------------------- one file

  /** `fs.file_path.stem.replace("__", "::")`. */
  function DeckNameOf(stem: string): string {
    Text.ReplaceAll(stem, "__", "::")
  }

  /** Whether the deck must be created: Anki has no truthy id for it. */
  predicate NeedsCreate(deckName: string, deckIdsByName: map<string, int>) {
    !(deckName in deckIdsByName && deckIdsByName[deckName] != 0)
  }

  /** The deck table after `_sync_file`: the deck Anki knows is recorded
      first; a deck that had to be created is recorded under the id Anki
      reports afterwards, when it reports one. */
  function DecksAfter(decks: Table, deckName: string, deckIdsByName: map<string, int>, refreshed: map<string, int>)
    : Table
  {
    if !NeedsCreate(deckName, deckIdsByName) then Tables.Put(decks, deckName, deckIdsByName[deckName])
    else if deckName != "" && deckName in refreshed then Tables.Put(decks, deckName, refreshed[deckName])
    else decks
  }

  datatype FileResult = FileResult(deckName: string, needsCreate: bool, changes: seq<NoteChange>,
                                   errors: seq<string>, assignments: seq<(Note, string)>)

  /** What Anki reports for one file: the cards' decks, the recovery and
      single-fetch answers, the ids `apply_note_changes` created and the
      errors it reported, and the deck ids after it ran. */
  datatype AnkiAnswers = AnkiAnswers(cardDecks: map<int, Option<string>>, found: map<string, seq<int>>,
                                     fetched: map<int, AnkiNote>, createdIds: seq<int>,
                                     applyErrors: seq<string>, refreshed: map<string, int>)

  /** The part of `_sync_file` between recording the deck and calling
      Anki: the notes' classification and the orphans' deletions. */
  method ClassifyFile(db: Db.SqliteDb, notes: seq<Note>, htmls: seq<Fields>, anki: map<int, AnkiNote>, env: Env,
                      globalKeys: set<string>, deckNoteIds: seq<int>, keys: nat -> string)
    returns (acc: Acc, deletes: seq<NoteChange>)
    requires db.Valid() && |htmls| == |notes|
    modifies db
    ensures db.Valid()
    ensures acc == Classify(old(db.store.notes), anki, notes, htmls, env, keys)
    ensures db.store == old(db.store).(notes := acc.table)
    ensures db.txDepth == old(db.txDepth) && db.events == old(db.events) && db.snapshot == old(db.snapshot)
    ensures Tables.Injective(acc.table)
    ensures deletes == Deletes(acc.table, OrphanIds(deckNoteIds, MarkdownIds(acc.table, notes) + GlobalIds(acc.table, globalKeys)))
    ensures forall c :: c in acc.creates ==> c.note.Some?
  {
    acc := SyncNotes(db, anki, notes, htmls, env, keys);
    var mdIds := CollectMarkdownIds(db, notes);
    var excluded := mdIds + GlobalIds(db.store.notes, globalKeys);
    deletes := OrphanDeletes(db, deckNoteIds, excluded);
    ClassifyCreations(old(db.store.notes), anki, notes, htmls, env, keys);
  }

  /** `_sync_file`. `deckNoteIds` are the ids of the notes Anki holds in
      the file's deck, `globalKeys` every key of the collection, `keys(j)`
      the `j`-th key the store generates. The deck name index `deck_ids_by_name`
      comes back updated. */
  method SyncFile(db: Db.SqliteDb, stem: string, notes: seq<Note>, htmls: seq<Fields>,
                  deckIdsByName: map<string, int>, anki: map<int, AnkiNote>, answers: AnkiAnswers,
                  onlyAddNew: bool, globalKeys: set<string>, deckNoteIds: seq<int>, keys: nat -> string)
    returns (result: FileResult, deckIds: map<string, int>)
    requires db.Valid() && |htmls| == |notes|
    modifies db
    ensures db.Valid()
    ensures result.deckName == DeckNameOf(stem)
    ensures result.needsCreate == NeedsCreate(result.deckName, deckIdsByName)
    ensures var name := result.deckName;
      var env := Env(name, answers.cardDecks, answers.found, answers.fetched, onlyAddNew);
      var acc := Classify(old(db.store.notes), anki, notes, htmls, env, keys);
      var orphans := OrphanIds(deckNoteIds, MarkdownIds(acc.table, notes) + GlobalIds(acc.table, globalKeys));
      var applied := name != "";
      && Tables.Injective(acc.table)
      && result.changes == (if applied then Linked(acc.creates, answers.createdIds) else acc.creates)
           + acc.updates + Deletes(acc.table, orphans) + acc.skips + acc.moves
      && result.errors == acc.errors + (if applied then answers.applyErrors else [])
      && |result.assignments| == (if applied then Min(|acc.creates|, |answers.createdIds|) else 0)
      && db.store.notes == (if applied then LinkAll(acc.table, Links(acc.creates, answers.createdIds)) else acc.table)
      && db.store.decks == DecksAfter(old(db.store.decks), name, deckIdsByName, answers.refreshed)
      && db.store.fingerprints == old(db.store.fingerprints) && db.store.config == old(db.store.config)
    ensures deckIds == if result.needsCreate && result.deckName != "" && result.deckName in answers.refreshed
                       then deckIdsByName[result.deckName := answers.refreshed[result.deckName]] else deckIdsByName
  {
    var name := DeckNameOf(stem);
    var needsCreate := NeedsCreate(name, deckIdsByName);
    if !needsCreate {
      db.SetDeck(name, deckIdsByName[name]);
    }
    var env := Env(name, answers.cardDecks, answers.found, answers.fetched, onlyAddNew);
    var acc, deletes := ClassifyFile(db, notes, htmls, anki, env, globalKeys, deckNoteIds, keys);
    var creates := acc.creates;
    var errors := acc.errors;
    var assignments := [];
    deckIds := deckIdsByName;
    if name != "" {
      var fallback := Models.Note(None, "", []);
      creates, assignments := LinkCreated(db, answers.createdIds, acc.creates, fallback);
      errors := errors + answers.applyErrors;
      if needsCreate && name in answers.refreshed {
        deckIds := deckIds[name := answers.refreshed[name]];
        db.SetDeck(name, answers.refreshed[name]);
      }
    }
    result := FileResult(name, needsCreate, creates + acc.updates + deletes + acc.skips + acc.moves, errors,
                         assignments);
  }

  // ---------------------------------------------------------------- duplicate keys across the collection

  /** The truthy keys of the collection's files, file by file, in order. */
  function CollectionKeys(files: seq<seq<Note>>): seq<string>
    decreases |files|
  {
    if |files| == 0 then []
    else CollectionKeys(files[..|files| - 1]) + FileKeys(files[|files| - 1])
  }

  function FileKeys(notes: seq<Note>): seq<string>
    decreases |notes|
  {
    if |notes| == 0 then []
    else FileKeys(notes[..|notes| - 1]) + if HasKey(notes[|notes| - 1]) then [notes[|notes| - 1].noteKey.value] else []
  }

  /** One message per occurrence of a key that an earlier note already
      holds. */
  function DuplicateMessages(keys: seq<string>): (r: seq<string>)
    decreases |keys|
  {
    if |keys| == 0 then []
    else
      var k := keys[|keys| - 1];
      DuplicateMessages(keys[..|keys| - 1]) + if k in keys[..|keys| - 1] then ["Duplicate note_key " + k] else []
  }

  /** There is no message exactly when no key occurs twice. */
  lemma {:induction false} DuplicateMessagesEmpty(keys: seq<string>)
    ensures DuplicateMessages(keys) == [] <==> forall i, j :: 0 <= i < j < |keys| ==> keys[i] != keys[j]
    decreases |keys|
  {
    if |keys| > 0 {
      var n := |keys| - 1;
      var init := keys[..n];
      DuplicateMessagesEmpty(init);
      assert forall i :: 0 <= i < n ==> init[i] == keys[i];
      if keys[n] in init {
        var i :| 0 <= i < n && init[i] == keys[n];
        assert keys[i] == keys[n];
      }
    }
  }

  /** Python's `repr` of a list of strings without quotes or backslashes. */
  function ListRepr(items: seq<string>): string {
    "[" + Text.Join(seq(|items|, i requires 0 <= i < |items| => "'" + items[i] + "'"), ", ") + "]"
  }

  /** The scan of `import_collection` before any Anki call: the set of keys,
      or the error that aborts the import. */
  function CheckKeys(files: seq<seq<Note>>): (r: Result<set<string>>)
  {
    var keys := CollectionKeys(files);
    var dups := DuplicateMessages(keys);
    if dups != [] then Err("Aborting import: Duplicates found: " + ListRepr(dups))
    else Ok(Elems(keys))
  }

  /** The import goes ahead exactly when no key is held by two notes of the
      collection, with every key in the global set; otherwise it aborts
      with one message per repeated occurrence. */
  lemma CheckKeysMeans(files: seq<seq<Note>>)
    ensures var keys := CollectionKeys(files);
      && (CheckKeys(files).Ok? <==> forall i, j :: 0 <= i < j < |keys| ==> keys[i] != keys[j])
      && (CheckKeys(files).Ok? ==> forall k :: k in CheckKeys(files).value <==> k in keys)
      && (CheckKeys(files).Err? ==>
            CheckKeys(files).error == "Aborting import: Duplicates found: " + ListRepr(DuplicateMessages(keys)))
  {
    DuplicateMessagesEmpty(CollectionKeys(files));
  }

  function Elems(s: seq<string>): (r: set<string>)
    ensures forall x :: x in r <==> x in s
  {
    set j | 0 <= j < |s| :: s[j]
  }

  /** The inner loop of the scan, over one file's notes. */
  method ScanFile(notes: seq<Note>, keys0: seq<string>, seen0: set<string>, dups0: seq<string>)
    returns (keys: seq<string>, seen: set<string>, dups: seq<string>)
    requires seen0 == Elems(keys0) && dups0 == DuplicateMessages(keys0)
    ensures keys == keys0 + FileKeys(notes)
    ensures seen == Elems(keys) && dups == DuplicateMessages(keys)
  {
    keys, seen, dups := keys0, seen0, dups0;
    var i := 0;
    while i < |notes|
      invariant 0 <= i <= |notes|
      invariant keys == keys0 + FileKeys(notes[..i])
      invariant seen == Elems(keys) && dups == DuplicateMessages(keys)
    {
      var n := notes[i];
      FileKeysNext(notes, i);
      if HasKey(n) {
        var k := n.noteKey.value;
        KeySnoc(keys, k);
        if k in seen {
          dups := dups + ["Duplicate note_key " + k];
        }
        keys := keys + [k];
        seen := seen + {k};
      }
      i := i + 1;
    }
    assert notes[..i] == notes;
  }

  lemma FileKeysNext(notes: seq<Note>, i: nat)
    requires i < |notes|
    ensures FileKeys(notes[..i + 1]) ==
      FileKeys(notes[..i]) + if HasKey(notes[i]) then [notes[i].noteKey.value] else []
  {
    assert notes[..i + 1][..i] == notes[..i];
  }

  /** One more key: it joins the keys seen, with a message when it was
      seen before. */
  lemma KeySnoc(keys: seq<string>, k: string)
    ensures Elems(keys + [k]) == Elems(keys) + {k}
    ensures DuplicateMessages(keys + [k]) ==
      DuplicateMessages(keys) + if k in Elems(keys) then ["Duplicate note_key " + k] else []
  {
    assert (keys + [k])[..|keys|] == keys;
  }

  /** The loop of `import_collection` that gathers `global_keys` and the
      duplicates. */
  method ScanKeys(files: seq<seq<Note>>) returns (r: Result<set<string>>)
    ensures r == CheckKeys(files)
  {
    var keys: seq<string> := [];
    var seen: set<string> := {};
    var dups: seq<string> := [];
    var f := 0;
    while f < |files|
      invariant 0 <= f <= |files|
      invariant keys == CollectionKeys(files[..f])
      invariant seen == Elems(keys) && dups == DuplicateMessages(keys)
    {
      keys, seen, dups := ScanFile(files[f], keys, seen, dups);
      assert files[..f + 1][..f] == files[..f];
      f := f + 1;
    }
    assert files[..f] == files;
    if dups != [] {
      r := Err("Aborting import: Duplicates found: " + ListRepr(dups));
    } else {
      r := Ok(seen);
    }
  }

  // ---------------------------------------------------------------- the first markdown line

  /** The field-line test of `_build_first_markdown_line` as written: the
      text before the value's first occurrence in the line, right-stripped,
      must end with a colon. */
  predicate PrefixedAsWritten(stripped: string, value: string) {
    && Text.EndsWith(stripped, value) && ':' in stripped
    && match Text.Find(stripped, value)
       case None => false
       case Some(i) => Text.EndsWith(Text.RStripSpace(stripped[..i]), ":")
  }

  /** The field-line test as intended: the line is a prefix ending in a
      colon (up to trailing spaces) followed by the value. */
  predicate Prefixed(stripped: string, value: string) {
    && Text.EndsWith(stripped, value) && ':' in stripped
    && Text.EndsWith(Text.RStripSpace(stripped[..|stripped| - |value|]), ":")
  }

  /** A line passes the intended test exactly when it is some prefix that
      ends in a colon, followed by the value. */
  lemma PrefixedMeans(stripped: string, value: string)
    ensures Prefixed(stripped, value) <==>
      exists p :: stripped == p + value && Text.EndsWith(Text.RStripSpace(p), ":")
  {
    if Prefixed(stripped, value) {
      var p := stripped[..|stripped| - |value|];
      assert stripped == p + value;
    }
    if exists p :: stripped == p + value && Text.EndsWith(Text.RStripSpace(p), ":") {
      var p :| stripped == p + value && Text.EndsWith(Text.RStripSpace(p), ":");
      assert p == stripped[..|stripped| - |value|];
      var r := Text.RStripSpace(p);
      assert r[|r| - 1] == ':';
      assert stripped[|r| - 1] == p[|r| - 1];
    }
  }

  /** The test as written accepts a line whose value occurs earlier inside
      it: `Q: 1 + 1` for the value `1`, whose prefix is `Q: 1 + `, not a
      field prefix. */
  lemma FirstOccurrenceMisreads()
    ensures PrefixedAsWritten("Q: 1 + 1", "1")
    ensures !Prefixed("Q: 1 + 1", "1")
  {
    var s := "Q: 1 + 1";
    assert s[0..1][0] == 'Q' && s[1..2][0] == ':' && s[2..3][0] == ' ';
    assert Text.OccursAt(s, "1", 3);
    assert Text.FindFrom(s, "1", 2) == Some(3);
    assert Text.FindFrom(s, "1", 0) == Some(3);
    assert ' ' in Text.Whitespace;
    assert ':' !in Text.Whitespace;
    assert '+' !in Text.Whitespace;
    assert s[..3] == "Q: " && "Q: "[..2] == "Q:";
    assert Text.RStripSpace("Q:") == "Q:";
    assert Text.RStripSpace("Q: ") == "Q:";
    assert s[..7] == "Q: 1 + " && "Q: 1 + "[..6] == "Q: 1 +";
    assert Text.RStripSpace("Q: 1 +") == "Q: 1 +";
    assert Text.RStripSpace("Q: 1 + ") == "Q: 1 +";
  }

  /** The first stripped line that passes `test`. */
  function PickLine(lines: seq<string>, value: string, test: (string, string) -> bool): (r: Option<string>)
    decreases |lines|
  {
    if |lines| == 0 then None
    else
      var stripped := Text.Strip(lines[0]);
      if test(stripped, value) then Some(stripped) else PickLine(lines[1..], value, test)
  }

  /** The picked line is the first line, stripped, that passes the test;
      there is none exactly when no line does. */
  lemma {:induction false} PickLineFirst(lines: seq<string>, value: string, test: (string, string) -> bool)
    ensures var r := PickLine(lines, value, test);
      && (r.None? <==> forall i :: 0 <= i < |lines| ==> !test(Text.Strip(lines[i]), value))
      && (r.Some? ==> exists i :: 0 <= i < |lines| && r.value == Text.Strip(lines[i]) && test(r.value, value)
                         && forall j :: 0 <= j < i ==> !test(Text.Strip(lines[j]), value))
    decreases |lines|
  {
    if |lines| > 0 && !test(Text.Strip(lines[0]), value) {
      PickLineFirst(lines[1..], value, test);
      assert forall i :: 1 <= i < |lines| ==> lines[i] == lines[1..][i - 1];
      var r := PickLine(lines, value, test);
      if r.Some? {
        var i :| 0 <= i < |lines[1..]| && r.value == Text.Strip(lines[1..][i]) && test(r.value, value)
                   && forall j :: 0 <= j < i ==> !test(Text.Strip(lines[1..][j]), value);
        assert forall j :: 0 <= j < i + 1 ==> !test(Text.Strip(lines[j]), value) by {
          forall j | 0 <= j < i + 1 ensures !test(Text.Strip(lines[j]), value) {
            if j > 0 { assert lines[j] == lines[1..][j - 1]; }
          }
        }
      }
    }
  }

  /** `_build_first_markdown_line`: "" for a note without a first line,
      the first field line of the raw file that ends with it, or the value
      itself when none does. */
  function FirstMarkdownLine(note: Note, raw: string, test: (string, string) -> bool): string {
    var value := Models.FirstFieldLine(note);
    if value == "" then ""
    else
      match PickLine(Text.Split(raw, "\n"), value, test)
      case Some(line) => line
      case None => value
  }

  lemma StripsOfExample()
    ensures Text.Strip("Q: 1 + 1") == "Q: 1 + 1" && Text.Strip("Q: 1") == "Q: 1"
  {
    assert 'Q' !in Text.Whitespace && '1' !in Text.Whitespace;
    assert Text.LStrip("Q: 1 + 1", Text.Whitespace) == "Q: 1 + 1";
    assert Text.RStrip("Q: 1 + 1", Text.Whitespace) == "Q: 1 + 1";
    assert Text.LStrip("Q: 1", Text.Whitespace) == "Q: 1";
    assert Text.RStrip("Q: 1", Text.Whitespace) == "Q: 1";
  }

  lemma ShortLinePrefixed()
    ensures Prefixed("Q: 1", "1")
  {
    var s := "Q: 1";
    assert ' ' in Text.Whitespace && ':' !in Text.Whitespace;
    assert s[..3] == "Q: " && "Q: "[..2] == "Q:";
    assert Text.RStripSpace("Q:") == "Q:";
    assert Text.RStripSpace("Q: ") == "Q:";
  }

  /** With two notes whose first lines are `1 + 1` and `1`, the line found
      for the second note as written is the first note's. */
  lemma FirstLineAsWrittenPicksOtherNote()
    ensures PickLine(["Q: 1 + 1", "Q: 1"], "1", PrefixedAsWritten) == Some("Q: 1 + 1")
    ensures PickLine(["Q: 1 + 1", "Q: 1"], "1", Prefixed) == Some("Q: 1")
  {
    FirstOccurrenceMisreads();
    StripsOfExample();
    ShortLinePrefixed();
    var lines := ["Q: 1 + 1", "Q: 1"];
    assert lines[1..] == ["Q: 1"];
    assert lines[1..][1..] == [];
  }

  /** The loop of `_build_first_markdown_line`, with the field test as
      intended. */
  method BuildFirstMarkdownLine(note: Note, raw: string) returns (line: string)
    ensures line == FirstMarkdownLine(note, raw, Prefixed)
  {
    var value := Models.FirstFieldLine(note);
    if value == "" {
      return "";
    }
    var lines := Text.Split(raw, "\n");
    var i := 0;
    while i < |lines|
      invariant 0 <= i <= |lines|
      invariant PickLine(lines, value, Prefixed) == PickLine(lines[i..], value, Prefixed)
    {
      var stripped := Text.Strip(lines[i]);
      assert lines[i..][1..] == lines[i + 1..];
      if Prefixed(stripped, value) {
        return stripped;
      }
      i := i + 1;
    }
    return value;
  }

  // ---------------------------------------------------------------- writing the keys back

  /** A file with the keys to write into it: the file name, the text it had
      when read, and each note to key with its key. */
  datatype Pending = Pending(fileName: string, raw: string, assignments: seq<(Note, string)>)

  function KeyComment(key: string): string {
    "<!-- note_key: " + key + " -->"
  }

  /** One key assignment: a keyed note's key comment is replaced, a new
      note gets its key comment on the line above its first field line. */
  function AssignOne(content: string, raw: string, a: (Note, string)): string {
    var (note, key) := a;
    if HasKey(note) then Text.ReplaceFirst(content, KeyComment(note.noteKey.value), KeyComment(key))
    else
      var line := FirstMarkdownLine(note, raw, Prefixed);
      Text.ReplaceFirst(content, line, KeyComment(key) + "\n" + line)
  }

  /** A new note's key comment lands directly above the first occurrence of
      its first field line, and nothing else changes. */
  lemma KeyCommentAbove(content: string, line: string, key: string, i: nat)
    requires Text.Find(content, line) == Some(i)
    ensures Text.ReplaceFirst(content, line, KeyComment(key) + "\n" + line)
      == content[..i] + KeyComment(key) + "\n" + content[i..]
  {
    assert content[i..i + |line|] == line;
    assert content[i..] == line + content[i + |line|..];
  }

  /** A keyed note's old key comment is replaced by the new one in place. */
  lemma AssignOneReplaces(content: string, raw: string, note: Note, key: string, i: nat)
    requires HasKey(note) && Text.Find(content, KeyComment(note.noteKey.value)) == Some(i)
    ensures AssignOne(content, raw, (note, key))
      == content[..i] + KeyComment(key) + content[i + |KeyComment(note.noteKey.value)|..]
  {
  }

  function AssignAll(content: string, raw: string, assignments: seq<(Note, string)>): string
    decreases |assignments|
  {
    if |assignments| == 0 then content
    else AssignOne(AssignAll(content, raw, assignments[..|assignments| - 1]), raw, assignments[|assignments| - 1])
  }

  /** The first field line of each assigned note. */
  function FirstLines(assignments: seq<(Note, string)>): (r: seq<string>)
    decreases |assignments|
  {
    if |assignments| == 0 then []
    else FirstLines(assignments[..|assignments| - 1]) + [Models.FirstFieldLine(assignments[|assignments| - 1].0)]
  }

  predicate Distinct(s: seq<string>) {
    forall i, j :: 0 <= i < j < |s| ==> s[i] != s[j]
  }

  /** No two assigned notes share a first line. */
  predicate FirstLinesDistinct(assignments: seq<(Note, string)>) {
    Distinct(FirstLines(assignments))
  }

  /** What `_flush_writes` does with one file: nothing without assignments;
      the abort when two assigned notes share a first line; otherwise the
      new content. */
  function Flushed(w: Pending): Option<Result<string>> {
    if |w.assignments| == 0 then None
    else if !FirstLinesDistinct(w.assignments) then
      Some(Err("Duplicate first lines prevent key assignment in " + w.fileName))
    else Some(Ok(AssignAll(w.raw, w.raw, w.assignments)))
  }

  /** The `first_lines` grouping of `_flush_writes`, reduced to whether
      some line has two notes. */
  method Unique(lines: seq<string>) returns (ok: bool)
    ensures ok == Distinct(lines)
  {
    var seen: set<string> := {};
    var i := 0;
    while i < |lines|
      invariant 0 <= i <= |lines|
      invariant Distinct(lines[..i])
      invariant forall x :: x in seen <==> x in lines[..i]
    {
      if lines[i] in seen {
        var j :| 0 <= j < i && lines[..i][j] == lines[i];
        assert lines[j] == lines[i];
        return false;
      }
      assert lines[..i + 1] == lines[..i] + [lines[i]];
      seen := seen + {lines[i]};
      i := i + 1;
    }
    assert lines[..i] == lines;
    return true;
  }

  /** One file of `_flush_writes`. */
  method FlushWrite(w: Pending) returns (r: Option<Result<string>>)
    ensures r == Flushed(w)
  {
    if |w.assignments| == 0 {
      return None;
    }
    var ok := Unique(FirstLines(w.assignments));
    if !ok {
      return Some(Err("Duplicate first lines prevent key assignment in " + w.fileName));
    }
    var content := w.raw;
    var i := 0;
    while i < |w.assignments|
      invariant 0 <= i <= |w.assignments|
      invariant content == AssignAll(w.raw, w.raw, w.assignments[..i])
    {
      assert w.assignments[..i + 1][..i] == w.assignments[..i];
      content := AssignOne(content, w.raw, w.assignments[i]);
      i := i + 1;
    }
    assert w.assignments[..i] == w.assignments;
    return Some(Ok(content));
  }

  /** `_flush_writes`: the files written, in order, up to the first abort,
      and the abort's message if there is one. */
  function FlushOutcome(writes: seq<Pending>, flush: Pending -> Option<Result<string>>)
    : (seq<(string, string)>, Option<string>)
    decreases |writes|
  {
    if |writes| == 0 then ([], None)
    else
      match flush(writes[0])
      case None => FlushOutcome(writes[1..], flush)
      case Some(Err(e)) => ([], Some(e))
      case Some(Ok(c)) =>
        var rest := FlushOutcome(writes[1..], flush);
        ([(writes[0].fileName, c)] + rest.0, rest.1)
  }

  /** A file is written only when it has keys to assign, and an abort stops
      every later file from being written. */
  lemma {:induction false} FlushOnlyAssigned(writes: seq<Pending>)
    ensures forall p :: p in FlushOutcome(writes, Flushed).0 ==>
      exists w :: w in writes && w.fileName == p.0 && |w.assignments| > 0
    decreases |writes|
  {
    if |writes| > 0 {
      FlushOnlyAssigned(writes[1..]);
      var out := FlushOutcome(writes, Flushed).0;
      forall p | p in out ensures exists w :: w in writes && w.fileName == p.0 && |w.assignments| > 0 {
        if p !in FlushOutcome(writes[1..], Flushed).0 {
          assert Flushed(writes[0]).Some?;
          assert writes[0] in writes;
        } else {
          var w :| w in writes[1..] && w.fileName == p.0 && |w.assignments| > 0;
          assert w in writes;
        }
      }
    }
  }

  /** One step of `FlushOutcome`, for any flush function. */
  lemma FlushOutcomeStep(writes: seq<Pending>, i: nat, flush: Pending -> Option<Result<string>>)
    requires i < |writes|
    ensures var here := FlushOutcome(writes[i..], flush);
      var next := FlushOutcome(writes[i + 1..], flush);
      match flush(writes[i])
      case None => here == next
      case Some(Err(e)) => here == ([], Some(e))
      case Some(Ok(c)) => here == ([(writes[i].fileName, c)] + next.0, next.1)
  {
    assert writes[i..][1..] == writes[i + 1..];
  }

  /** `_flush_writes`: each file in turn, stopping at the first abort. */
  method FlushWrites(writes: seq<Pending>) returns (written: seq<(string, string)>, error: Option<string>)
    ensures (written, error) == FlushOutcome(writes, Flushed)
  {
    written, error := FlushEach(writes, Flushed);
  }

  /** `FlushWrite` seen through a function equal to `Flushed`. */
  method FlushWriteAs(w: Pending, ghost flush: Pending -> Option<Result<string>>) returns (r: Option<Result<string>>)
    requires forall v {:trigger Flushed(v)} :: flush(v) == Flushed(v)
    ensures r == flush(w)
  {
    r := FlushWrite(w);
  }

  /** The loop of `_flush_writes`, over a function equal to `Flushed`. */
  method FlushEach(writes: seq<Pending>, ghost flush: Pending -> Option<Result<string>>)
    returns (written: seq<(string, string)>, error: Option<string>)
    requires forall v {:trigger Flushed(v)} :: flush(v) == Flushed(v)
    ensures (written, error) == FlushOutcome(writes, flush)
  {
    written := [];
    var i := 0;
    assert writes[0..] == writes;
    while i < |writes|
      invariant 0 <= i <= |writes|
      invariant FlushOutcome(writes, flush).0 == written + FlushOutcome(writes[i..], flush).0
      invariant FlushOutcome(writes, flush).1 == FlushOutcome(writes[i..], flush).1
    {
      FlushOutcomeStep(writes, i, flush);
      var r := FlushWriteAs(writes[i], flush);
      if r.Some? && r.value.Err? {
        assert written + FlushOutcome(writes[i..], flush).0 == written;
        return written, Some(r.value.error);
      }
      if r.Some? {
        written := written + [(writes[i].fileName, r.value.value)];
      }
      i := i + 1;
    }
    assert writes[i..] == [];
    assert FlushOutcome(writes[i..], flush) == ([], None);
    assert written + FlushOutcome(writes[i..], flush).0 == written;
    return written, None;
  }

}
