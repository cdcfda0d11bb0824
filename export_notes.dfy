/** Exporting Anki to Markdown, deck by deck: each Anki note gets its note
    key (the stored mapping, or the key embedded in the note, or a new one),
    is compared with the note of the same key in the deck's file, and the
    file is rewritten from the resolved notes; keyed notes that left the
    deck are deleted, and files no deck claimed are removed. */
module ExportNotes {
  import opened Wrappers
  import Text
  import Config
  import Sorting
  import Models
  import Db
  import Tables
  import opened SyncSummaries

  type Note = Models.Note
  type Fields = seq<(string, string)>

  /** A note as Anki reports it. */
  datatype AnkiNote = AnkiNote(noteId: int, noteType: string, fields: map<string, string>)

  /** `note_fingerprint(note_type, fields)`: a hash of a note's type and
      field dict. */
  type Hasher = (string, map<string, string>) -> string

  /** The dict a list of field pairs stands for: a later pair wins. */
  function FieldMap(fields: Fields): map<string, string>
    decreases |fields|
  {
    if |fields| == 0 then map[]
    else FieldMap(fields[..|fields| - 1])[fields[|fields| - 1].0 := fields[|fields| - 1].1]
  }

  /** `d.get(k, "")`. */
  function Get(m: map<string, string>, k: string): string {
    if k in m then m[k] else ""
  }

  predicate Keyed(n: Note) {
    n.noteKey.Some? && n.noteKey.value != ""
  }

  // ---------------------------------------------------------------- _from_html

  /** The fields `_from_html` keeps, in config order: each configured field
      other than the key field that Anki has and whose Markdown form is not
      empty. */
  function Converted(fs: seq<Models.Field>, anki: map<string, string>, toMarkdown: string -> string): Fields
    decreases |fs|
  {
    if |fs| == 0 then []
    else
      var rest := Converted(fs[..|fs| - 1], anki, toMarkdown);
      var f := fs[|fs| - 1];
      if f.name != Models.KeyFieldName && f.name in anki && toMarkdown(anki[f.name]) != "" then
        rest + [(f.name, toMarkdown(anki[f.name]))]
      else rest
  }

  lemma {:induction false} ConvertedMeans(fs: seq<Models.Field>, anki: map<string, string>, toMarkdown: string -> string)
    ensures forall p :: p in Converted(fs, anki, toMarkdown) <==>
      (exists i :: 0 <= i < |fs| && fs[i].name == p.0)
      && p.0 != Models.KeyFieldName && p.0 in anki && p.1 == toMarkdown(anki[p.0]) && p.1 != ""
    decreases |fs|
  {
    if |fs| > 0 {
      var n := |fs| - 1;
      ConvertedMeans(fs[..n], anki, toMarkdown);
      forall p ensures p in Converted(fs, anki, toMarkdown) <==>
        (exists i :: 0 <= i < |fs| && fs[i].name == p.0)
        && p.0 != Models.KeyFieldName && p.0 in anki && p.1 == toMarkdown(anki[p.0]) && p.1 != ""
      {
        if exists i :: 0 <= i < |fs| && fs[i].name == p.0 {
          var i :| 0 <= i < |fs| && fs[i].name == p.0;
          if i < n {
            assert fs[..n][i] == fs[i];
          }
        }
        if exists i :: 0 <= i < n && fs[..n][i].name == p.0 {
          var i :| 0 <= i < n && fs[..n][i].name == p.0;
          assert fs[i].name == p.0;
        }
      }
    }
  }

  /** `_from_html`: the converted fields and the note key, which is the
      stripped key field and none when that is empty. `toMarkdown` is the
      file system adapter's HTML-to-Markdown conversion. */
  function FromHtml(a: AnkiNote, config: Models.NoteTypeConfig, toMarkdown: string -> string): (n: Note)
    ensures n.noteType == a.noteType
    ensures Keyed(n) <==> Text.Strip(Get(a.fields, Models.KeyFieldName)) != ""
    ensures Keyed(n) ==> n.noteKey.value == Text.Strip(Get(a.fields, Models.KeyFieldName))
  {
    var key := Text.Strip(Get(a.fields, Models.KeyFieldName));
    Models.Note(if key == "" then None else Some(key), a.noteType, Converted(config.fields, a.fields, toMarkdown))
  }

  // ---------------------------------------------------------------- the caches

  /** The caches one export pass shares between its decks:
      `note_keys_by_id`, the note mappings still to store, the fingerprints
      by note key, and the fingerprints still to store. */
  datatype Cache = Cache(noteKeys: map<int, string>, mappings: seq<(string, int)>,
                         fingerprints: map<string, Db.Fingerprint>, pendingFps: seq<Db.FpRow>)

  /** `_queue_note_mapping`: the mapping is recorded, and queued for the
      store only when it changes the cache. */
  function QueueMapping(c: Cache, key: string, id: int): (r: Cache)
    ensures r.noteKeys == c.noteKeys[id := key]
    ensures r.fingerprints == c.fingerprints && r.pendingFps == c.pendingFps
    ensures r.mappings == c.mappings <==> id in c.noteKeys && c.noteKeys[id] == key
    ensures r.mappings != c.mappings ==> r.mappings == c.mappings + [(key, id)]
  {
    if id in c.noteKeys && c.noteKeys[id] == key then c
    else c.(noteKeys := c.noteKeys[id := key], mappings := c.mappings + [(key, id)])
  }

  /** `_queue_fingerprint`: the same for a note's fingerprint pair. */
  function QueueFingerprint(c: Cache, key: string, fp: Db.Fingerprint): (r: Cache)
    ensures r.fingerprints == c.fingerprints[key := fp]
    ensures r.noteKeys == c.noteKeys && r.mappings == c.mappings
    ensures r.pendingFps == c.pendingFps <==> key in c.fingerprints && c.fingerprints[key] == fp
    ensures r.pendingFps != c.pendingFps ==> r.pendingFps == c.pendingFps + [(key, fp)]
  {
    if key in c.fingerprints && c.fingerprints[key] == fp then c
    else c.(fingerprints := c.fingerprints[key := fp], pendingFps := c.pendingFps + [(key, fp)])
  }

  // ---------------------------------------------------------------- the deck's file

  /** The notes of the deck's Markdown file by note key, and those without
      a key by first field line; in both a later note wins, as in a dict
      comprehension. */
  datatype Local = Local(byKey: map<string, Note>, byContent: map<string, Note>)

  function LocalOf(notes: seq<Note>): Local {
    Local(ByKey(notes), ByContent(notes))
  }

  function ByKey(notes: seq<Note>): map<string, Note>
    decreases |notes|
  {
    if |notes| == 0 then map[]
    else
      var n := notes[|notes| - 1];
      if Keyed(n) then ByKey(notes[..|notes| - 1])[n.noteKey.value := n]
      else ByKey(notes[..|notes| - 1])
  }

  function ByContent(notes: seq<Note>): map<string, Note>
    decreases |notes|
  {
    if |notes| == 0 then map[]
    else
      var n := notes[|notes| - 1];
      if Keyed(n) then ByContent(notes[..|notes| - 1])
      else ByContent(notes[..|notes| - 1])[Models.FirstFieldLine(n) := n]
  }

  /** A note found by key carries that key. */
  lemma {:induction false} ByKeyCarries(notes: seq<Note>)
    ensures forall k :: k in ByKey(notes) ==> ByKey(notes)[k].noteKey == Some(k)
    decreases |notes|
  {
    if |notes| > 0 {
      ByKeyCarries(notes[..|notes| - 1]);
    }
  }

  /** A note found by content has no key. */
  lemma {:induction false} ByContentUnkeyed(notes: seq<Note>)
    ensures forall k :: k in ByContent(notes) ==> !Keyed(ByContent(notes)[k])
    decreases |notes|
  {
    if |notes| > 0 {
      ByContentUnkeyed(notes[..|notes| - 1]);
    }
  }

  /** The keys found are exactly the file's note keys. */
  lemma {:induction false} ByKeyListed(notes: seq<Note>)
    ensures forall k :: k in ByKey(notes) <==>
      exists i :: 0 <= i < |notes| && Keyed(notes[i]) && notes[i].noteKey.value == k
    decreases |notes|
  {
    if |notes| > 0 {
      var n := |notes| - 1;
      ByKeyListed(notes[..n]);
      forall k ensures k in ByKey(notes) <==>
        exists i :: 0 <= i < |notes| && Keyed(notes[i]) && notes[i].noteKey.value == k
      {
        if exists i :: 0 <= i < n && Keyed(notes[..n][i]) && notes[..n][i].noteKey.value == k {
          var i :| 0 <= i < n && Keyed(notes[..n][i]) && notes[..n][i].noteKey.value == k;
          assert notes[i] == notes[..n][i];
        }
        if exists i :: 0 <= i < |notes| && Keyed(notes[i]) && notes[i].noteKey.value == k {
          var i :| 0 <= i < |notes| && Keyed(notes[i]) && notes[i].noteKey.value == k;
          if i < n {
            assert notes[..n][i] == notes[i];
          }
        }
      }
    }
  }

  // ---------------------------------------------------------------- one Anki note

  /** A note of the deck with its key and id, the note to write, and the
      change reported for it. */
  datatype Resolved = Resolved(noteKey: string, noteId: int, note: Note, change: Change)

  /** What one Anki note gives: the caches after it, the resolved note or
      the error, and whether a generated key was used. */
  datatype Outcome = Outcome(cache: Cache, resolved: Option<Resolved>, error: Option<string>, generated: bool)

  /** The key mapped to a note id, `""` for none. */
  function StoredKey(c: Cache, id: int): string {
    if id in c.noteKeys then c.noteKeys[id] else ""
  }

  function EmbeddedKey(a: AnkiNote): string {
    Text.Strip(Get(a.fields, Models.KeyFieldName))
  }

  /** The note's key once an embedded key has overridden a missing or
      different mapping. */
  function KeyAfterOverride(c: Cache, a: AnkiNote): string {
    if EmbeddedKey(a) != "" && StoredKey(c, a.noteId) != EmbeddedKey(a) then EmbeddedKey(a)
    else StoredKey(c, a.noteId)
  }

  function CacheAfterOverride(c: Cache, a: AnkiNote): Cache {
    if EmbeddedKey(a) != "" && StoredKey(c, a.noteId) != EmbeddedKey(a) then QueueMapping(c, EmbeddedKey(a), a.noteId)
    else c
  }

  function LocalHash(n: Note, hash: Hasher): string {
    hash(n.noteType, FieldMap(n.fields))
  }

  /** The cached fingerprint pair equals the local note's hash and Anki's. */
  predicate Unchanged(c: Cache, key: string, local: Local, a: AnkiNote, hash: Hasher) {
    key != "" && key in local.byKey && key in c.fingerprints
    && c.fingerprints[key] == Db.Fingerprint(LocalHash(local.byKey[key], hash), hash(a.noteType, a.fields))
  }

  /** The key a note without one gets: that of the file's note with the
      same first line when it has one, else the generated key. */
  predicate Adopts(dn: Note, local: Local) {
    Models.FirstFieldLine(dn) in local.byContent && Keyed(local.byContent[Models.FirstFieldLine(dn)])
  }

  function ContentKey(dn: Note, local: Local, newKey: string): string {
    if Adopts(dn, local) then local.byContent[Models.FirstFieldLine(dn)].noteKey.value else newKey
  }

  /** The note converted from Anki, keyed and compared with the file. */
  function Compared(c: Cache, a: AnkiNote, key: string, dn: Note, local: Local, hash: Hasher): Outcome {
    var n := dn.(noteKey := Some(key));
    var ankiHash := hash(a.noteType, a.fields);
    if key in local.byKey && FieldMap(local.byKey[key].fields) == FieldMap(n.fields) then
      var kept := local.byKey[key];
      Outcome(QueueFingerprint(c, key, Db.Fingerprint(LocalHash(kept, hash), ankiHash)),
              Some(Resolved(key, a.noteId, kept, Change(Skip, IntId(a.noteId), Models.Identifier(n)))), None, false)
    else
      var kind := if key in local.byKey then Update else Create;
      Outcome(QueueFingerprint(c, key, Db.Fingerprint(LocalHash(n, hash), ankiHash)),
              Some(Resolved(key, a.noteId, n, Change(kind, IntId(a.noteId), Models.Identifier(n)))), None, false)
  }

  /** The body of `_resolve_deck_notes`' loop for one Anki note. */
  function NoteStep(c: Cache, a: AnkiNote, configs: map<string, Models.NoteTypeConfig>, local: Local,
                    hash: Hasher, toMarkdown: string -> string, newKey: string): Outcome
  {
    var c1 := CacheAfterOverride(c, a);
    var key := KeyAfterOverride(c, a);
    if Unchanged(c1, key, local, a, hash) then
      var kept := local.byKey[key];
      Outcome(QueueFingerprint(c1, key, Db.Fingerprint(LocalHash(kept, hash), hash(a.noteType, a.fields))),
              Some(Resolved(key, a.noteId, kept, Change(Skip, IntId(a.noteId), Models.Identifier(kept)))), None, false)
    else if a.noteType !in configs then
      Outcome(c1, None, Some("Unknown note type " + a.noteType + " for note " + Text.IntToString(a.noteId)), false)
    else
      KnownStep(c1, a, key, FromHtml(a, configs[a.noteType], toMarkdown), local, hash, newKey)
  }

  /** A note of a known type, converted to `dn`: with its key, or else with
      the key found by content or generated, recorded for its note id. */
  function KnownStep(c: Cache, a: AnkiNote, key: string, dn: Note, local: Local, hash: Hasher, newKey: string): Outcome {
    if key != "" then Compared(c, a, key, dn, local, hash)
    else
      var k := ContentKey(dn, local, newKey);
      var o := Compared(QueueMapping(c, k, a.noteId), a, k, dn, local, hash);
      o.(generated := !Adopts(dn, local))
  }

  /** Comparing a keyed note with the file: the key and the note id are
      kept, the mappings are untouched, and the kind of change follows the
      file's note with that key. */
  lemma ComparedMeans(c: Cache, a: AnkiNote, key: string, dn: Note, local: Local, hash: Hasher)
    ensures var o := Compared(c, a, key, dn, local, hash);
      && o.error.None? && o.resolved.Some? && !o.generated
      && o.cache.noteKeys == c.noteKeys && o.cache.mappings == c.mappings
      && Extends(c.pendingFps, o.cache.pendingFps)
      && var r := o.resolved.value;
      && r.noteKey == key && r.noteId == a.noteId && r.change.entityId == IntId(a.noteId)
      && (r.change.changeType == Create <==> key !in local.byKey)
      && (r.change.changeType == Skip <==> key in local.byKey && FieldMap(local.byKey[key].fields) == FieldMap(dn.fields))
      && r.change.changeType in {Create, Update, Skip}
      && r.note == (if r.change.changeType == Skip then local.byKey[key] else dn.(noteKey := Some(key)))
  {
    assert dn.(noteKey := Some(key)).fields == dn.fields;
  }

  /** A non-empty embedded key overrides a missing or different mapping:
      it becomes the note's key, is recorded for the note id, and is queued
      for the store exactly when the mapping differed. */
  lemma EmbeddedKeyWins(c: Cache, a: AnkiNote, configs: map<string, Models.NoteTypeConfig>, local: Local,
                        hash: Hasher, toMarkdown: string -> string, newKey: string)
    requires EmbeddedKey(a) != ""
    ensures var o := NoteStep(c, a, configs, local, hash, toMarkdown, newKey);
      && a.noteId in o.cache.noteKeys && o.cache.noteKeys[a.noteId] == EmbeddedKey(a)
      && (o.resolved.Some? ==> o.resolved.value.noteKey == EmbeddedKey(a))
      && o.cache.mappings == c.mappings
           + (if StoredKey(c, a.noteId) != EmbeddedKey(a) then [(EmbeddedKey(a), a.noteId)] else [])
      && !o.generated
  {
    var c1 := CacheAfterOverride(c, a);
    var key := KeyAfterOverride(c, a);
    assert key == EmbeddedKey(a);
    assert a.noteId in c1.noteKeys && c1.noteKeys[a.noteId] == key;
    if !Unchanged(c1, key, local, a, hash) && a.noteType in configs {
      ComparedMeans(c1, a, key, FromHtml(a, configs[a.noteType], toMarkdown), local, hash);
    }
  }

  /** When the cached fingerprints equal the local note's hash and Anki's,
      the note is skipped, the file's note is kept as it is, and no cache
      changes beyond the key override. */
  lemma UnchangedSkipped(c: Cache, a: AnkiNote, configs: map<string, Models.NoteTypeConfig>, local: Local,
                         hash: Hasher, toMarkdown: string -> string, newKey: string)
    requires Unchanged(CacheAfterOverride(c, a), KeyAfterOverride(c, a), local, a, hash)
    ensures var o := NoteStep(c, a, configs, local, hash, toMarkdown, newKey);
      var key := KeyAfterOverride(c, a);
      && o.resolved == Some(Resolved(key, a.noteId, local.byKey[key],
                                     Change(Skip, IntId(a.noteId), Models.Identifier(local.byKey[key]))))
      && o.error.None? && o.cache == CacheAfterOverride(c, a) && !o.generated
  {
  }

  /** Otherwise a note of an unknown type is an error and is left out. */
  lemma UnknownTypeOmitted(c: Cache, a: AnkiNote, configs: map<string, Models.NoteTypeConfig>, local: Local,
                           hash: Hasher, toMarkdown: string -> string, newKey: string)
    requires !Unchanged(CacheAfterOverride(c, a), KeyAfterOverride(c, a), local, a, hash)
    requires a.noteType !in configs
    ensures var o := NoteStep(c, a, configs, local, hash, toMarkdown, newKey);
      && o.resolved.None? && o.error == Some("Unknown note type " + a.noteType + " for note " + Text.IntToString(a.noteId))
      && o.cache == CacheAfterOverride(c, a) && !o.generated
  {
  }

  /** Otherwise the converted note is created when the file has no note
      with its key, skipped (keeping the file's note) when the file's note
      has the same fields, and updated otherwise; the key is recorded for
      the note id either way. */
  lemma KnownTypeClassified(c: Cache, a: AnkiNote, configs: map<string, Models.NoteTypeConfig>, local: Local,
                            hash: Hasher, toMarkdown: string -> string, newKey: string)
    requires !Unchanged(CacheAfterOverride(c, a), KeyAfterOverride(c, a), local, a, hash)
    requires a.noteType in configs
    ensures var o := NoteStep(c, a, configs, local, hash, toMarkdown, newKey);
      var dn := FromHtml(a, configs[a.noteType], toMarkdown);
      && o.error.None? && o.resolved.Some?
      && var r := o.resolved.value;
      && r.noteId == a.noteId && r.change.entityId == IntId(a.noteId)
      && a.noteId in o.cache.noteKeys && o.cache.noteKeys[a.noteId] == r.noteKey
      && (r.change.changeType == Create <==> r.noteKey !in local.byKey)
      && (r.change.changeType == Skip <==>
            r.noteKey in local.byKey && FieldMap(local.byKey[r.noteKey].fields) == FieldMap(dn.fields))
      && r.change.changeType in {Create, Update, Skip}
      && r.note == (if r.change.changeType == Skip then local.byKey[r.noteKey] else dn.(noteKey := Some(r.noteKey)))
      && (KeyAfterOverride(c, a) != "" ==> r.noteKey == KeyAfterOverride(c, a) && !o.generated)
      && Extends(c.mappings, o.cache.mappings) && Extends(c.pendingFps, o.cache.pendingFps)
  {
    var c1 := CacheAfterOverride(c, a);
    var key := KeyAfterOverride(c, a);
    var dn := FromHtml(a, configs[a.noteType], toMarkdown);
    var o := NoteStep(c, a, configs, local, hash, toMarkdown, newKey);
    assert o == KnownStep(c1, a, key, dn, local, hash, newKey);
    assert Extends(c.mappings, c1.mappings) && c1.pendingFps == c.pendingFps;
    KnownStepClassified(c1, a, key, dn, local, hash, newKey);
    ExtendsTrans(c.mappings, c1.mappings, o.cache.mappings);
  }

  /** What `KnownTypeClassified` states of one converted note, for the
      caches `c` it starts from. */
  predicate Classified(o: Outcome, c: Cache, a: AnkiNote, key: string, dn: Note, local: Local) {
    && o.error.None? && o.resolved.Some?
    && var r := o.resolved.value;
    && r.noteId == a.noteId && r.change.entityId == IntId(a.noteId)
    && a.noteId in o.cache.noteKeys && o.cache.noteKeys[a.noteId] == r.noteKey
    && (r.change.changeType == Create <==> r.noteKey !in local.byKey)
    && (r.change.changeType == Skip <==>
          r.noteKey in local.byKey && FieldMap(local.byKey[r.noteKey].fields) == FieldMap(dn.fields))
    && r.change.changeType in {Create, Update, Skip}
    && r.note == (if r.change.changeType == Skip then local.byKey[r.noteKey] else dn.(noteKey := Some(r.noteKey)))
    && (key != "" ==> r.noteKey == key && !o.generated)
    && Extends(c.mappings, o.cache.mappings) && Extends(c.pendingFps, o.cache.pendingFps)
  }

  lemma KnownStepClassified(c: Cache, a: AnkiNote, key: string, dn: Note, local: Local, hash: Hasher, newKey: string)
    requires key != "" ==> a.noteId in c.noteKeys && c.noteKeys[a.noteId] == key
    ensures Classified(KnownStep(c, a, key, dn, local, hash, newKey), c, a, key, dn, local)
  {
    if key != "" {
      ComparedMeans(c, a, key, dn, local, hash);
    } else {
      var k := ContentKey(dn, local, newKey);
      var c2 := QueueMapping(c, k, a.noteId);
      ComparedMeans(c2, a, k, dn, local, hash);
      assert c2.noteKeys[a.noteId] == k;
      assert c2.mappings[..|c.mappings|] == c.mappings;
    }
  }

  /** A file's notes without a key can never lend one: a note of a known
      type with no mapped or embedded key always takes the generated key. */
  lemma KeylessTakesNewKey(c: Cache, a: AnkiNote, configs: map<string, Models.NoteTypeConfig>, notes: seq<Note>,
                           hash: Hasher, toMarkdown: string -> string, newKey: string)
    requires KeyAfterOverride(c, a) == ""
    requires a.noteType in configs
    ensures var o := NoteStep(c, a, configs, LocalOf(notes), hash, toMarkdown, newKey);
      o.resolved.Some? && o.resolved.value.noteKey == newKey && o.generated
  {
    var local := LocalOf(notes);
    var c1 := CacheAfterOverride(c, a);
    var dn := FromHtml(a, configs[a.noteType], toMarkdown);
    assert NoteStep(c, a, configs, local, hash, toMarkdown, newKey) == KnownStep(c1, a, "", dn, local, hash, newKey);
    ByContentUnkeyed(notes);
    assert !Adopts(dn, local);
    ComparedMeans(QueueMapping(c1, newKey, a.noteId), a, newKey, dn, local, hash);
  }

  // ---------------------------------------------------------------- _resolve_deck_notes

  /** One Anki note's step, given the key a generated key would be. */
  type Stepper = (Cache, AnkiNote, string) -> Outcome

  function StepOf(configs: map<string, Models.NoteTypeConfig>, local: Local, hash: Hasher,
                  toMarkdown: string -> string): Stepper
  {
    (c, a, k) => NoteStep(c, a, configs, local, hash, toMarkdown, k)
  }

  /** The state of `_resolve_deck_notes` after a run of notes: the caches,
      the resolved notes, the errors, and how many generated keys are used;
      `keys(n)` is the key the n-th call of `generate_note_key` returns. */
  datatype Pass = Pass(cache: Cache, resolved: seq<Resolved>, errors: seq<string>, used: nat)

  function ResolveAll(c: Cache, notes: seq<AnkiNote>, step: Stepper, keys: nat -> string, used: nat): Pass
    decreases |notes|
  {
    if |notes| == 0 then Pass(c, [], [], used)
    else
      var p := ResolveAll(c, notes[..|notes| - 1], step, keys, used);
      var o := step(p.cache, notes[|notes| - 1], keys(p.used));
      Pass(o.cache,
           p.resolved + (if o.resolved.Some? then [o.resolved.value] else []),
           p.errors + (if o.error.Some? then [o.error.value] else []),
           p.used + (if o.generated then 1 else 0))
  }

  /** `a` is `b` with possibly more at the end. */
  predicate Extends<T(==)>(a: seq<T>, b: seq<T>) {
    |a| <= |b| && b[..|a|] == a
  }

  /** What every note's step promises: a resolved note or an error, never
      both; the resolved note is the Anki note's; the store queues only
      grow. */
  predicate StepOk(o: Outcome, c: Cache, a: AnkiNote) {
    && (o.resolved.Some? <==> o.error.None?)
    && (o.resolved.Some? ==> o.resolved.value.noteId == a.noteId && o.resolved.value.change.entityId == IntId(a.noteId))
    && Extends(c.mappings, o.cache.mappings) && Extends(c.pendingFps, o.cache.pendingFps)
  }

  lemma NoteStepOk(c: Cache, a: AnkiNote, configs: map<string, Models.NoteTypeConfig>, local: Local,
                   hash: Hasher, toMarkdown: string -> string, newKey: string)
    ensures StepOk(NoteStep(c, a, configs, local, hash, toMarkdown, newKey), c, a)
  {
    var o := NoteStep(c, a, configs, local, hash, toMarkdown, newKey);
    var c1 := CacheAfterOverride(c, a);
    var key := KeyAfterOverride(c, a);
    assert Extends(c.mappings, c1.mappings) && c1.pendingFps == c.pendingFps;
    if Unchanged(c1, key, local, a, hash) {
      UnchangedSkipped(c, a, configs, local, hash, toMarkdown, newKey);
    } else if a.noteType !in configs {
      UnknownTypeOmitted(c, a, configs, local, hash, toMarkdown, newKey);
    } else {
      KnownTypeClassified(c, a, configs, local, hash, toMarkdown, newKey);
    }
  }

  lemma ExtendsTrans<T>(a: seq<T>, b: seq<T>, c: seq<T>)
    requires Extends(a, b) && Extends(b, c)
    ensures Extends(a, c)
  {
    assert c[..|b|][..|a|] == c[..|a|];
  }

  lemma AllStepsOk(configs: map<string, Models.NoteTypeConfig>, local: Local, hash: Hasher, toMarkdown: string -> string)
    ensures forall c, a, k :: StepOk(StepOf(configs, local, hash, toMarkdown)(c, a, k), c, a)
  {
    forall c, a, k ensures StepOk(StepOf(configs, local, hash, toMarkdown)(c, a, k), c, a) {
      NoteStepOk(c, a, configs, local, hash, toMarkdown, k);
    }
  }

  /** Every Anki note of the deck gives exactly one resolved note or one
      error, each resolved note is one of the deck's Anki notes, at most one
      generated key is used per note, and the store queues only grow. */
  lemma {:induction false} ResolveAccounts(c: Cache, notes: seq<AnkiNote>, step: Stepper, keys: nat -> string, used: nat)
    requires forall c', a, k :: StepOk(step(c', a, k), c', a)
    ensures var p := ResolveAll(c, notes, step, keys, used);
      && |p.resolved| + |p.errors| == |notes|
      && (forall r :: r in p.resolved ==> exists i :: 0 <= i < |notes| && notes[i].noteId == r.noteId)
      && (forall r :: r in p.resolved ==> r.change.entityId == IntId(r.noteId))
      && used <= p.used <= used + |notes|
      && Extends(c.mappings, p.cache.mappings) && Extends(c.pendingFps, p.cache.pendingFps)
    decreases |notes|
  {
    if |notes| > 0 {
      var n := |notes| - 1;
      ResolveAccounts(c, notes[..n], step, keys, used);
      var p := ResolveAll(c, notes[..n], step, keys, used);
      var o := step(p.cache, notes[n], keys(p.used));
      assert StepOk(o, p.cache, notes[n]);
      var p2 := ResolveAll(c, notes, step, keys, used);
      forall r | r in p2.resolved ensures exists i :: 0 <= i < |notes| && notes[i].noteId == r.noteId {
        if r in p.resolved {
          var i :| 0 <= i < n && notes[..n][i].noteId == r.noteId;
          assert notes[i] == notes[..n][i];
        } else {
          assert notes[n].noteId == r.noteId;
        }
      }
      ExtendsTrans(c.mappings, p.cache.mappings, p2.cache.mappings);
      ExtendsTrans(c.pendingFps, p.cache.pendingFps, p2.cache.pendingFps);
    }
  }

  /** `_resolve_deck_notes`: the loop over the deck's Anki notes. */
  method ResolveDeckNotes(c: Cache, notes: seq<AnkiNote>, step: Stepper, keys: nat -> string, used: nat)
    returns (p: Pass)
    ensures p == ResolveAll(c, notes, step, keys, used)
  {
    var cache := c;
    var resolved: seq<Resolved> := [];
    var errors: seq<string> := [];
    var u := used;
    for i := 0 to |notes|
      invariant Pass(cache, resolved, errors, u) == ResolveAll(c, notes[..i], step, keys, used)
    {
      assert notes[..i + 1][..i] == notes[..i];
      var o := step(cache, notes[i], keys(u));
      cache := o.cache;
      if o.resolved.Some? {
        resolved := resolved + [o.resolved.value];
      }
      if o.error.Some? {
        errors := errors + [o.error.value];
      }
      if o.generated {
        u := u + 1;
      }
    }
    assert notes[..|notes|] == notes;
    return Pass(cache, resolved, errors, u);
  }

  // ---------------------------------------------------------------- _order_resolved_notes

  function NoteIdOf(r: Resolved): int {
    r.noteId
  }

  function NotesOf(rs: seq<Resolved>): (ns: seq<Note>)
    ensures |ns| == |rs| && forall i :: 0 <= i < |rs| ==> ns[i] == rs[i].note
  {
    seq(|rs|, i requires 0 <= i < |rs| => rs[i].note)
  }

  /** `resolved_by_note_key`: the keyed resolved notes by key, a later one
      winning. */
  function ResolvedByKey(rs: seq<Resolved>): map<string, Resolved>
    decreases |rs|
  {
    if |rs| == 0 then map[]
    else
      var r := rs[|rs| - 1];
      if r.noteKey != "" then ResolvedByKey(rs[..|rs| - 1])[r.noteKey := r]
      else ResolvedByKey(rs[..|rs| - 1])
  }

  /** Every entry is a resolved note under its own key. */
  lemma {:induction false} ResolvedByKeyFrom(rs: seq<Resolved>)
    ensures forall k :: k in ResolvedByKey(rs) ==> ResolvedByKey(rs)[k] in rs && ResolvedByKey(rs)[k].noteKey == k
    decreases |rs|
  {
    if |rs| > 0 {
      ResolvedByKeyFrom(rs[..|rs| - 1]);
      forall k | k in ResolvedByKey(rs) ensures ResolvedByKey(rs)[k] in rs {
        if k !in ResolvedByKey(rs[..|rs| - 1]) || (rs[|rs| - 1].noteKey != "" && k == rs[|rs| - 1].noteKey) {
        } else {
          assert ResolvedByKey(rs[..|rs| - 1])[k] in rs[..|rs| - 1];
        }
      }
    }
  }

  /** The resolved notes of the file's keyed notes, in the file's order. */
  function Kept(existing: seq<Note>, byKey: map<string, Resolved>): seq<Resolved>
    decreases |existing|
  {
    if |existing| == 0 then []
    else
      var e := existing[|existing| - 1];
      Kept(existing[..|existing| - 1], byKey)
        + (if Keyed(e) && e.noteKey.value in byKey then [byKey[e.noteKey.value]] else [])
  }

  lemma {:induction false} KeptFrom(existing: seq<Note>, byKey: map<string, Resolved>)
    ensures forall r :: r in Kept(existing, byKey) ==> exists k :: k in byKey && byKey[k] == r
    decreases |existing|
  {
    if |existing| > 0 {
      KeptFrom(existing[..|existing| - 1], byKey);
    }
  }

  function KeysOf(rs: seq<Resolved>): set<string> {
    set r | r in rs :: r.noteKey
  }

  /** `remaining`: the resolved notes whose key was not consumed, in order. */
  function Unconsumed(rs: seq<Resolved>, consumed: set<string>): (r: seq<Resolved>)
    ensures forall x :: x in r <==> x in rs && x.noteKey !in consumed
    decreases |rs|
  {
    if |rs| == 0 then []
    else
      var x := rs[|rs| - 1];
      assert rs == rs[..|rs| - 1] + [x];
      Unconsumed(rs[..|rs| - 1], consumed) + (if x.noteKey !in consumed then [x] else [])
  }

  /** The resolved notes in the order `_order_resolved_notes` gives them:
      on a first export by note id; otherwise the file's keyed notes in file
      order, then the others by note id. */
  function Ordered(rs: seq<Resolved>, existing: seq<Note>, isFirst: bool): seq<Resolved> {
    if isFirst then Sorting.SortBy(rs, NoteIdOf)
    else
      var kept := Kept(existing, ResolvedByKey(rs));
      kept + Sorting.SortBy(Unconsumed(rs, KeysOf(kept)), NoteIdOf)
  }

  /** A first export is a permutation sorted by note id; otherwise the
      kept notes come first, and the rest are exactly the notes whose key
      was not consumed, sorted by note id. */
  lemma OrderedShape(rs: seq<Resolved>, existing: seq<Note>, isFirst: bool)
    ensures var r := Ordered(rs, existing, isFirst);
      isFirst ==> Sorting.SortedBy(r, NoteIdOf) && multiset(r) == multiset(rs)
    ensures var r := Ordered(rs, existing, isFirst);
      !isFirst ==>
      var kept := Kept(existing, ResolvedByKey(rs));
      && |kept| <= |r| && r[..|kept|] == kept
      && Sorting.SortedBy(r[|kept|..], NoteIdOf)
      && forall x :: x in r[|kept|..] <==> x in rs && x.noteKey !in KeysOf(kept)
  {
    if !isFirst {
      var kept := Kept(existing, ResolvedByKey(rs));
      var rest := Sorting.SortBy(Unconsumed(rs, KeysOf(kept)), NoteIdOf);
      assert (kept + rest)[|kept|..] == rest;
      assert (kept + rest)[..|kept|] == kept;
      forall x ensures x in rest <==> x in Unconsumed(rs, KeysOf(kept)) {
        assert x in rest <==> x in multiset(rest);
      }
    }
  }

  /** Ordering invents no note. */
  lemma OrderedSound(rs: seq<Resolved>, existing: seq<Note>, isFirst: bool)
    ensures forall x :: x in Ordered(rs, existing, isFirst) ==> x in rs
  {
    var r := Ordered(rs, existing, isFirst);
    OrderedShape(rs, existing, isFirst);
    if isFirst {
      forall x | x in r ensures x in rs {
        assert x in multiset(r);
      }
    } else {
      var byKey := ResolvedByKey(rs);
      var kept := Kept(existing, byKey);
      ResolvedByKeyFrom(rs);
      KeptFrom(existing, byKey);
      forall x | x in r ensures x in rs {
        if x !in r[|kept|..] {
          var i :| 0 <= i < |r| && r[i] == x;
          assert r[..|kept|][i] == x;
        }
      }
    }
  }

  /** No two resolved notes share a key. */
  predicate DistinctKeys(rs: seq<Resolved>) {
    forall i, j :: 0 <= i < j < |rs| ==> rs[i].noteKey != rs[j].noteKey
  }

  /** Ordering loses no note when keys are distinct. */
  lemma OrderedCovers(rs: seq<Resolved>, existing: seq<Note>, isFirst: bool)
    requires DistinctKeys(rs)
    ensures forall x :: x in rs ==> x in Ordered(rs, existing, isFirst)
  {
    var r := Ordered(rs, existing, isFirst);
    OrderedShape(rs, existing, isFirst);
    if isFirst {
      forall x | x in rs ensures x in r {
        assert x in multiset(rs);
      }
    } else {
      var byKey := ResolvedByKey(rs);
      var kept := Kept(existing, byKey);
      ResolvedByKeyFrom(rs);
      KeptFrom(existing, byKey);
      forall x | x in rs ensures x in r {
        if x.noteKey in KeysOf(kept) {
          var y :| y in kept && y.noteKey == x.noteKey;
          var k :| k in byKey && byKey[k] == y;
          var i :| 0 <= i < |rs| && rs[i] == x;
          var j :| 0 <= j < |rs| && rs[j] == y;
          assert i == j;
          var m :| 0 <= m < |kept| && kept[m] == y;
          assert r[..|kept|][m] == y;
        }
      }
    }
  }

  /** `_order_resolved_notes`. */
  method OrderResolvedNotes(rs: seq<Resolved>, existing: seq<Note>, isFirst: bool) returns (notes: seq<Note>)
    ensures notes == NotesOf(Ordered(rs, existing, isFirst))
  {
    if isFirst {
      return NotesOf(Sorting.SortBy(rs, NoteIdOf));
    }
    var byKey := ResolvedByKey(rs);
    var kept, consumed := KeptNotes(existing, byKey);
    var rest := Sorting.SortBy(Unconsumed(rs, consumed), NoteIdOf);
    notes := NotesOf(kept) + NotesOf(rest);
    NotesOfAppend(kept, rest);
  }

  lemma NotesOfAppend(a: seq<Resolved>, b: seq<Resolved>)
    ensures NotesOf(a + b) == NotesOf(a) + NotesOf(b)
  {
    assert forall i :: 0 <= i < |a + b| ==> NotesOf(a + b)[i] == (NotesOf(a) + NotesOf(b))[i];
  }

  /** The loop of `_order_resolved_notes` over the file's notes. */
  method KeptNotes(existing: seq<Note>, byKey: map<string, Resolved>) returns (kept: seq<Resolved>, consumed: set<string>)
    ensures kept == Kept(existing, byKey) && consumed == KeysOf(kept)
  {
    consumed := {};
    kept := [];
    for i := 0 to |existing|
      invariant kept == Kept(existing[..i], byKey) && consumed == KeysOf(kept)
    {
      assert existing[..i + 1][..i] == existing[..i];
      var e := existing[i];
      if Keyed(e) && e.noteKey.value in byKey {
        var r := byKey[e.noteKey.value];
        kept := kept + [r];
        consumed := consumed + {r.noteKey};
      }
    }
    assert existing[..|existing|] == existing;
  }

  // ---------------------------------------------------------------- _render_notes_to_markdown

  function KeyComment(key: string): string {
    "<!-- note_key: " + key + " -->"
  }

  /** Joining parts whose first one has gained a head adds that head. */
  lemma JoinHead(h: string, parts: seq<string>, sep: string)
    requires |parts| >= 1
    ensures Text.Join([h + parts[0]] + parts[1..], sep) == h + Text.Join(parts, sep)
  {
    if |parts| > 1 {
      Text.JoinCons(h + parts[0], parts[1..], sep);
      assert parts == [parts[0]] + parts[1..];
      Text.JoinCons(parts[0], parts[1..], sep);
    }
  }

  /** A prefixed field's lines: the prefix, a space and the first line of
      the value, then its other lines. */
  function FieldLines(prefix: string, value: string): seq<string> {
    var lines := Text.Split(value, "\n");
    [prefix + " " + lines[0]] + lines[1..]
  }

  /** Joined back, a field's lines give the prefix, a space and the whole
      value: rendering loses nothing of a field. */
  lemma FieldLinesJoin(prefix: string, value: string)
    ensures Text.Join(FieldLines(prefix, value), "\n") == prefix + " " + value
  {
    Text.JoinSplit(value, "\n");
    JoinHead(prefix + " ", Text.Split(value, "\n"), "\n");
  }

  /** The lines of a note's fields in config order: each field with a
      prefix that the note has with a non-empty value. */
  function FieldParts(fs: seq<Models.Field>, values: map<string, string>): seq<string>
    decreases |fs|
  {
    if |fs| == 0 then []
    else
      var f := fs[|fs| - 1];
      FieldParts(fs[..|fs| - 1], values)
        + (if f.prefix.Some? && f.prefix.value != "" && f.name in values && values[f.name] != ""
           then FieldLines(f.prefix.value, values[f.name]) else [])
  }

  function NoteParts(note: Note, config: Models.NoteTypeConfig): seq<string> {
    (if Keyed(note) then [KeyComment(note.noteKey.value)] else []) + FieldParts(config.fields, FieldMap(note.fields))
  }

  /** A keyed note's text starts with its key comment. */
  lemma KeyCommentFirst(note: Note, config: Models.NoteTypeConfig)
    requires Keyed(note)
    ensures Text.StartsWith(Text.Join(NoteParts(note, config), "\n"), KeyComment(note.noteKey.value))
  {
    SyncSummaries.JoinStartsWithFirst(NoteParts(note, config), "\n");
  }

  /** Each note's text, or the first note type without a config. */
  function NoteTexts(notes: seq<Note>, configs: map<string, Models.NoteTypeConfig>): Result<seq<string>>
    decreases |notes|
  {
    if |notes| == 0 then Ok([])
    else
      var n := notes[|notes| - 1];
      match NoteTexts(notes[..|notes| - 1], configs)
      case Err(e) => Err(e)
      case Ok(texts) =>
        if n.noteType !in configs then Err(n.noteType)
        else Ok(texts + [Text.Join(NoteParts(n, configs[n.noteType]), "\n")])
  }

  /** The texts fail exactly when some note's type has no config, and then
      name the first such type; otherwise there is one text per note. */
  lemma {:induction false} NoteTextsMeans(notes: seq<Note>, configs: map<string, Models.NoteTypeConfig>)
    ensures NoteTexts(notes, configs).Err? <==> exists i :: 0 <= i < |notes| && notes[i].noteType !in configs
    ensures NoteTexts(notes, configs).Err? ==>
      exists i :: (0 <= i < |notes| && NoteTexts(notes, configs).error == notes[i].noteType
        && notes[i].noteType !in configs && forall j :: 0 <= j < i ==> notes[j].noteType in configs)
    ensures NoteTexts(notes, configs).Ok? ==> |NoteTexts(notes, configs).value| == |notes|
    decreases |notes|
  {
    if |notes| > 0 {
      var n := |notes| - 1;
      NoteTextsMeans(notes[..n], configs);
      if exists i :: 0 <= i < n && notes[..n][i].noteType !in configs {
        var i :| 0 <= i < n && notes[..n][i].noteType !in configs;
        assert notes[i] == notes[..n][i];
        var e :| 0 <= e < n && NoteTexts(notes[..n], configs).error == notes[..n][e].noteType && notes[..n][e].noteType !in configs
          && forall j :: 0 <= j < e ==> notes[..n][j].noteType in configs;
        assert notes[e] == notes[..n][e];
        forall j | 0 <= j < e ensures notes[j].noteType in configs {
          assert notes[j] == notes[..n][j];
        }
      } else {
        forall j | 0 <= j < n ensures notes[j].noteType in configs {
          assert notes[j] == notes[..n][j];
        }
      }
    }
  }

  /** `_render_notes_to_markdown`: the note texts joined by the note
      separator, with a final newline; a note type without a config raises
      `KeyError`. */
  function Rendered(notes: seq<Note>, configs: map<string, Models.NoteTypeConfig>): Result<string> {
    match NoteTexts(notes, configs)
    case Err(e) => Err(e)
    case Ok(texts) => Ok(Text.Join(texts, Config.NoteSeparator) + "\n")
  }

  /** The loop over a note's fields. */
  method RenderNote(note: Note, config: Models.NoteTypeConfig) returns (parts: seq<string>)
    ensures parts == NoteParts(note, config)
  {
    parts := [];
    if Keyed(note) {
      parts := parts + [KeyComment(note.noteKey.value)];
    }
    var more := RenderFields(config.fields, FieldMap(note.fields));
    parts := parts + more;
  }

  method RenderFields(fs: seq<Models.Field>, values: map<string, string>) returns (parts: seq<string>)
    ensures parts == FieldParts(fs, values)
  {
    parts := [];
    for i := 0 to |fs|
      invariant parts == FieldParts(fs[..i], values)
    {
      assert fs[..i + 1][..i] == fs[..i];
      var f := fs[i];
      if f.prefix.Some? && f.prefix.value != "" && f.name in values && values[f.name] != "" {
        var more := PrefixedLines(f.prefix.value, values[f.name]);
        parts := parts + more;
      }
    }
    assert fs[..|fs|] == fs;
  }

  /** One prefixed field: the prefix with the first line, then the rest. */
  method PrefixedLines(prefix: string, value: string) returns (parts: seq<string>)
    ensures parts == FieldLines(prefix, value)
  {
    var lines := Text.Split(value, "\n");
    parts := [prefix + " " + lines[0]];
    if |lines| > 1 {
      parts := parts + lines[1..];
    } else {
      assert lines[1..] == [];
    }
  }

  method RenderNotesToMarkdown(notes: seq<Note>, configs: map<string, Models.NoteTypeConfig>) returns (r: Result<string>)
    ensures r == Rendered(notes, configs)
  {
    var texts: seq<string> := [];
    for i := 0 to |notes|
      invariant NoteTexts(notes[..i], configs) == Ok(texts)
    {
      assert notes[..i + 1][..i] == notes[..i];
      if notes[i].noteType !in configs {
        NoteTextsMeans(notes, configs);
        NoteTextsMeans(notes[..i + 1], configs);
        return Err(notes[i].noteType);
      }
      var parts := RenderNote(notes[i], configs[notes[i].noteType]);
      texts := texts + [Text.Join(parts, "\n")];
    }
    assert notes[..|notes|] == notes;
    return Ok(Text.Join(texts, Config.NoteSeparator) + "\n");
  }

  // ---------------------------------------------------------------- _sync_deck

  /** The deck's Markdown file as read: its text, its notes, and whether it
      was just created empty (a first export). */
  datatype DeckFile = DeckFile(raw: string, notes: seq<Note>, isFirst: bool)

  /** The note keys of the final notes. */
  function FinalKeys(notes: seq<Note>): set<string> {
    set n | n in notes && Keyed(n) :: n.noteKey.value
  }

  /** The file's keyed notes whose key is not among the final keys. */
  function Removed(notes: seq<Note>, finalKeys: set<string>): (r: seq<Note>)
    ensures forall n :: n in r <==> n in notes && Keyed(n) && n.noteKey.value !in finalKeys
    decreases |notes|
  {
    if |notes| == 0 then []
    else
      var n := notes[|notes| - 1];
      assert notes == notes[..|notes| - 1] + [n];
      Removed(notes[..|notes| - 1], finalKeys) + (if Keyed(n) && n.noteKey.value !in finalKeys then [n] else [])
  }

  function KeysOfNotes(notes: seq<Note>): set<string> {
    set n | n in notes && Keyed(n) :: n.noteKey.value
  }

  function DeleteChanges(removed: seq<Note>): (r: seq<Change>)
    ensures |r| == |removed|
    ensures forall i :: 0 <= i < |r| ==> r[i] == Change(Delete, NoId, Models.Identifier(removed[i]))
  {
    seq(|removed|, i requires 0 <= i < |removed| => Change(Delete, NoId, Models.Identifier(removed[i])))
  }

  /** What one deck's export gives: the deck's result, the text written
      to its file (none when only whitespace at the ends differs), the keys
      removed from the store, and the resolution pass. */
  datatype DeckExport = DeckExport(result: NoteSyncResult, written: Option<string>, removedKeys: set<string>, pass: Pass)

  /** `_sync_deck` once the deck's file is read. */
  function DeckSpec(c: Cache, deckName: string, ankiNotes: seq<AnkiNote>, configs: map<string, Models.NoteTypeConfig>,
                    file: DeckFile, hash: Hasher, toMarkdown: string -> string, keys: nat -> string, used: nat)
    : Result<DeckExport>
  {
    var pass := ResolveAll(c, ankiNotes, StepOf(configs, LocalOf(file.notes), hash, toMarkdown), keys, used);
    var final := NotesOf(Ordered(pass.resolved, file.notes, file.isFirst));
    match Rendered(final, configs)
    case Err(e) => Err(e)
    case Ok(text) =>
      var removed := Removed(file.notes, FinalKeys(final));
      var changes := seq(|pass.resolved|, i requires 0 <= i < |pass.resolved| => pass.resolved[i].change)
        + DeleteChanges(removed);
      Ok(DeckExport(NoteSyncResult(deckName, changes, pass.errors),
                    if Text.Strip(text) != Text.Strip(file.raw) then Some(text) else None,
                    KeysOfNotes(removed), pass))
  }

  /** A file note is deleted exactly when it is keyed and its key is not
      among the final notes' keys, and each deletion is reported. */
  lemma DeletedIffMissing(notes: seq<Note>, finalKeys: set<string>, n: Note)
    requires n in notes && Keyed(n)
    ensures n.noteKey.value in KeysOfNotes(Removed(notes, finalKeys)) <==> n.noteKey.value !in finalKeys
    ensures n.noteKey.value !in finalKeys ==>
      Change(Delete, NoId, Models.Identifier(n)) in DeleteChanges(Removed(notes, finalKeys))
  {
    var removed := Removed(notes, finalKeys);
    if n.noteKey.value !in finalKeys {
      assert n in removed;
      var i :| 0 <= i < |removed| && removed[i] == n;
      assert DeleteChanges(removed)[i] == Change(Delete, NoId, Models.Identifier(n));
    }
    if n.noteKey.value in KeysOfNotes(removed) {
      var m :| m in removed && Keyed(m) && m.noteKey.value == n.noteKey.value;
    }
  }

  /** The removals of `_sync_deck`, one key at a time. */
  method RemoveDeleted(db: Db.SqliteDb, removed: seq<Note>)
    requires db.Valid()
    modifies db
    ensures db.Valid()
    ensures db.store == old(db.store).(notes := old(db.store).notes - KeysOfNotes(removed),
                                       fingerprints := old(db.store).fingerprints - KeysOfNotes(removed))
    ensures db.txDepth == old(db.txDepth) && db.events == old(db.events) && db.snapshot == old(db.snapshot)
  {
    for i := 0 to |removed|
      invariant db.Valid()
      invariant db.store == old(db.store).(notes := old(db.store).notes - KeysOfNotes(removed[..i]),
                                           fingerprints := old(db.store).fingerprints - KeysOfNotes(removed[..i]))
      invariant db.txDepth == old(db.txDepth) && db.events == old(db.events) && db.snapshot == old(db.snapshot)
    {
      var n := removed[i];
      assert KeysOfNotes(removed[..i + 1]) == KeysOfNotes(removed[..i]) + (if Keyed(n) then {n.noteKey.value} else {}) by {
        assert removed[..i + 1] == removed[..i] + [n];
      }
      if Keyed(n) {
        db.RemoveNoteByKey(n.noteKey.value);
      }
    }
    assert removed[..|removed|] == removed;
  }

  /** `_sync_deck` once the deck's file is read: resolve, order, render,
      decide whether to write, then remove and report the deleted notes. */
  method SyncDeck(db: Db.SqliteDb, c: Cache, deckName: string, ankiNotes: seq<AnkiNote>,
                  configs: map<string, Models.NoteTypeConfig>, file: DeckFile, hash: Hasher,
                  toMarkdown: string -> string, keys: nat -> string, used: nat)
    returns (r: Result<DeckExport>)
    requires db.Valid()
    modifies db
    ensures db.Valid()
    ensures r == DeckSpec(c, deckName, ankiNotes, configs, file, hash, toMarkdown, keys, used)
    ensures r.Ok? ==> db.store == old(db.store).(notes := old(db.store).notes - r.value.removedKeys,
                                                 fingerprints := old(db.store).fingerprints - r.value.removedKeys)
    ensures r.Err? ==> db.store == old(db.store)
    ensures db.txDepth == old(db.txDepth) && db.events == old(db.events) && db.snapshot == old(db.snapshot)
  {
    var step := StepOf(configs, LocalOf(file.notes), hash, toMarkdown);
    var pass := ResolveDeckNotes(c, ankiNotes, step, keys, used);
    var final := OrderResolvedNotes(pass.resolved, file.notes, file.isFirst);
    var text := RenderNotesToMarkdown(final, configs);
    if text.Err? {
      return Err(text.error);
    }
    var written := if Text.Strip(text.value) != Text.Strip(file.raw) then Some(text.value) else None;
    var removed := Removed(file.notes, FinalKeys(final));
    RemoveDeleted(db, removed);
    var changes := seq(|pass.resolved|, i requires 0 <= i < |pass.resolved| => pass.resolved[i].change)
      + DeleteChanges(removed);
    r := Ok(DeckExport(NoteSyncResult(deckName, changes, pass.errors), written, KeysOfNotes(removed), pass));
  }

  // ---------------------------------------------------------------- export_collection

  /** The queued mappings and fingerprints are written once every deck is
      done, each only when something is queued. */
  method StoreQueued(db: Db.SqliteDb, c: Cache)
    requires db.Valid()
    modifies db
    ensures db.Valid()
    ensures db.store == old(db.store).(
      notes := if |c.mappings| > 0 then Db.PutAll(old(db.store).notes, c.mappings) else old(db.store).notes,
      fingerprints := if |c.pendingFps| > 0 then Db.InsertFps(old(db.store).fingerprints, c.pendingFps)
                      else old(db.store).fingerprints)
    ensures db.txDepth == old(db.txDepth) && db.events == old(db.events) && db.snapshot == old(db.snapshot)
  {
    if |c.mappings| > 0 {
      db.SetNotesBulkSequential(c.mappings);
    }
    if |c.pendingFps| > 0 {
      db.SetNoteFingerprintsBulk(c.pendingFps);
    }
  }

  /** The stems of the Markdown files no deck claimed and that are still
      present (a deck rename may have moved one away). */
  function OrphanFiles(stems: seq<string>, present: set<string>, active: set<string>): (r: seq<string>)
    ensures forall f :: f in r <==> f in stems && f in present && f !in active
    decreases |stems|
  {
    if |stems| == 0 then []
    else
      var f := stems[|stems| - 1];
      assert stems == stems[..|stems| - 1] + [f];
      OrphanFiles(stems[..|stems| - 1], present, active) + (if f in present && f !in active then [f] else [])
  }

  function FileDelete(stem: string): Change {
    Change(Delete, NoId, "file: " + stem + ".md")
  }

  function FileDeletes(stems: seq<string>): (r: seq<Change>)
    ensures |r| == |stems| && forall i :: 0 <= i < |stems| ==> r[i] == FileDelete(stems[i])
  {
    seq(|stems|, i requires 0 <= i < |stems| => FileDelete(stems[i]))
  }

  function DeckNames(stems: seq<string>, deckNameOf: string -> string): set<string> {
    set f | f in stems :: deckNameOf(f)
  }

  lemma DeckNamesSnoc(stems: seq<string>, f: string, deckNameOf: string -> string)
    ensures DeckNames(stems + [f], deckNameOf) == DeckNames(stems, deckNameOf) + {deckNameOf(f)}
  {
    assert forall g :: g in stems + [f] <==> g in stems || g == f;
  }

  lemma OrphanFilesSnoc(stems: seq<string>, i: nat, present: set<string>, active: set<string>)
    requires i < |stems|
    ensures OrphanFiles(stems[..i + 1], present, active) ==
      OrphanFiles(stems[..i], present, active) + (if stems[i] in present && stems[i] !in active then [stems[i]] else [])
  {
    assert stems[..i + 1][..i] == stems[..i];
  }

  lemma FileDeletesSnoc(stems: seq<string>, f: string)
    ensures FileDeletes(stems + [f]) == FileDeletes(stems) + [FileDelete(f)]
  {
  }

  /** Distinct files give distinct reports. */
  lemma FileDeleteInjective(a: string, b: string)
    requires FileDelete(a) == FileDelete(b)
    ensures a == b
  {
    var x := "file: " + a + ".md";
    assert |a| == |b|;
    assert a == x[6..6 + |a|];
  }

  /** A file is reported deleted exactly when it is present, unclaimed,
      and one of the collection's Markdown files. */
  lemma OrphansReported(stems: seq<string>, present: set<string>, active: set<string>, f: string)
    ensures FileDelete(f) in FileDeletes(OrphanFiles(stems, present, active)) <==>
      f in stems && f in present && f !in active
  {
    var o := OrphanFiles(stems, present, active);
    if FileDelete(f) in FileDeletes(o) {
      var i :| 0 <= i < |o| && FileDeletes(o)[i] == FileDelete(f);
      FileDeleteInjective(o[i], f);
    }
    if f in o {
      var i :| 0 <= i < |o| && o[i] == f;
      assert FileDeletes(o)[i] == FileDelete(f);
    }
  }

  /** The orphan-file loop of `export_collection`: each orphan's deck
      mapping is removed and the file reported deleted. `deckNameOf` is
      `file_stem_to_deck_name`; unlinking the file is left to the caller. */
  method RemoveOrphanFiles(db: Db.SqliteDb, stems: seq<string>, present: set<string>, active: set<string>,
                           deckNameOf: string -> string)
    returns (extra: seq<Change>)
    requires db.Valid()
    modifies db
    ensures db.Valid()
    ensures extra == FileDeletes(OrphanFiles(stems, present, active))
    ensures db.store == old(db.store).(decks := old(db.store).decks - DeckNames(OrphanFiles(stems, present, active), deckNameOf))
    ensures db.txDepth == old(db.txDepth) && db.events == old(db.events) && db.snapshot == old(db.snapshot)
  {
    extra := [];
    ghost var orphans: seq<string> := [];
    for i := 0 to |stems|
      invariant db.Valid()
      invariant orphans == OrphanFiles(stems[..i], present, active) && extra == FileDeletes(orphans)
      invariant db.store == old(db.store).(decks := old(db.store).decks - DeckNames(orphans, deckNameOf))
      invariant db.txDepth == old(db.txDepth) && db.events == old(db.events) && db.snapshot == old(db.snapshot)
    {
      var f := stems[i];
      OrphanFilesSnoc(stems, i, present, active);
      if f in present && f !in active {
        db.RemoveDeck(deckNameOf(f));
        DeckNamesSnoc(orphans, f, deckNameOf);
        FileDeletesSnoc(orphans, f);
        orphans := orphans + [f];
        extra := extra + [FileDelete(f)];
      }
    }
    assert stems[..|stems|] == stems;
  }

  /** One deck of the collection as `export_collection` meets it: its
      notes grouped by primary card, the state of its Markdown file, and
      the stem of that file. */
  datatype DeckGroup = DeckGroup(deckName: string, notes: seq<AnkiNote>, file: DeckFile, stem: string)

  /** What the deck loop has built so far. */
  datatype Export = Export(store: Db.Store, cache: Cache, results: seq<NoteSyncResult>, used: nat, active: set<string>)

  /** How one deck is synced: `DeckSpec` with everything but the cache,
      the deck and the key counter fixed. */
  type DeckSyncer = (Cache, DeckGroup, nat) -> Result<DeckExport>

  function SyncerOf(configs: map<string, Models.NoteTypeConfig>, hash: Hasher, toMarkdown: string -> string,
                    keys: nat -> string): DeckSyncer
  {
    (c, g: DeckGroup, used: nat) => DeckSpec(c, g.deckName, g.notes, configs, g.file, hash, toMarkdown, keys, used)
  }

  /** The store after one deck: its deleted notes gone, its name mapped to its id. */
  function DeckStored(st: Db.Store, removed: set<string>, name: string, id: int): Db.Store {
    st.(notes := st.notes - removed, fingerprints := st.fingerprints - removed).(decks := Tables.Put(st.decks, name, id))
  }

  /** One pass of the deck loop: "Default" is skipped, a deck without an
      id is a `KeyError`, a failed deck aborts the export. */
  function DeckStep(e: Export, g: DeckGroup, deckIds: map<string, int>, sync: DeckSyncer): Result<Export> {
    if g.deckName == "Default" then Ok(e)
    else if g.deckName !in deckIds then Err("KeyError: " + g.deckName)
    else match sync(e.cache, g, e.used)
      case Err(m) => Err(m)
      case Ok(d) =>
        Ok(Export(DeckStored(e.store, d.removedKeys, g.deckName, deckIds[g.deckName]), d.pass.cache,
                  e.results + [d.result], d.pass.used, e.active + {g.stem}))
  }

  function ExportAll(e: Export, groups: seq<DeckGroup>, deckIds: map<string, int>, sync: DeckSyncer): Result<Export>
    decreases |groups|
  {
    if |groups| == 0 then Ok(e)
    else match ExportAll(e, groups[..|groups| - 1], deckIds, sync)
      case Err(m) => Err(m)
      case Ok(e1) => DeckStep(e1, groups[|groups| - 1], deckIds, sync)
  }

  /** The decks that are exported, in order: every deck but "Default". */
  function ExportedDecks(groups: seq<DeckGroup>): (r: seq<string>)
    ensures forall n :: n in r <==> n != "Default" && exists g :: g in groups && g.deckName == n
    decreases |groups|
  {
    if |groups| == 0 then []
    else
      var g := groups[|groups| - 1];
      var front := groups[..|groups| - 1];
      assert groups == front + [g];
      ExportedDecks(front) + (if g.deckName == "Default" then [] else [g.deckName])
  }

  function ResultDecks(results: seq<NoteSyncResult>): seq<string> {
    seq(|results|, i requires 0 <= i < |results| => results[i].deckName)
  }

  ghost predicate NamesResults(sync: DeckSyncer) {
    forall c, g: DeckGroup, used :: sync(c, g, used).Ok? ==> sync(c, g, used).value.result.deckName == g.deckName
  }

  lemma SyncerNamesResults(configs: map<string, Models.NoteTypeConfig>, hash: Hasher, toMarkdown: string -> string,
                           keys: nat -> string)
    ensures NamesResults(SyncerOf(configs, hash, toMarkdown, keys))
  {
  }

  /** A successful export holds one result per deck other than "Default",
      in the order of the decks, and every result it started with. */
  lemma {:induction false} ExportedInOrder(e: Export, groups: seq<DeckGroup>, deckIds: map<string, int>, sync: DeckSyncer)
    requires NamesResults(sync)
    ensures ExportAll(e, groups, deckIds, sync).Ok? ==>
      ResultDecks(ExportAll(e, groups, deckIds, sync).value.results) == ResultDecks(e.results) + ExportedDecks(groups)
    decreases |groups|
  {
    if |groups| > 0 {
      var front := groups[..|groups| - 1];
      ExportedInOrder(e, front, deckIds, sync);
      var r := ExportAll(e, front, deckIds, sync);
      if r.Ok? {
        var g := groups[|groups| - 1];
        var e1 := r.value;
        var s := DeckStep(e1, g, deckIds, sync);
        if s.Ok? && g.deckName != "Default" {
          var d := sync(e1.cache, g, e1.used).value;
          assert ResultDecks(e1.results + [d.result]) == ResultDecks(e1.results) + [g.deckName];
        }
      }
    }
  }

  /** The first deck that fails aborts the whole export with its error. */
  lemma {:induction false} ExportErrorAborts(e: Export, groups: seq<DeckGroup>, n: nat, deckIds: map<string, int>,
                                             sync: DeckSyncer)
    requires n <= |groups| && ExportAll(e, groups[..n], deckIds, sync).Err?
    ensures ExportAll(e, groups, deckIds, sync) == ExportAll(e, groups[..n], deckIds, sync)
    decreases |groups|
  {
    if n < |groups| {
      var front := groups[..|groups| - 1];
      assert front[..n] == groups[..n];
      ExportErrorAborts(e, front, n, deckIds, sync);
    } else {
      assert groups[..n] == groups;
    }
  }

  /** The deck loop of `export_collection`: every deck but "Default" is
      synced in turn, sharing the caches and the key counter, and its name
      is then mapped to its id. */
  method ExportDecks(db: Db.SqliteDb, c: Cache, groups: seq<DeckGroup>, deckIds: map<string, int>,
                     configs: map<string, Models.NoteTypeConfig>, hash: Hasher, toMarkdown: string -> string,
                     keys: nat -> string, used: nat)
    returns (r: Result<Export>)
    requires db.Valid()
    modifies db
    ensures db.Valid()
    ensures r == ExportAll(Export(old(db.store), c, [], used, {}), groups, deckIds, SyncerOf(configs, hash, toMarkdown, keys))
    ensures r.Ok? ==> db.store == r.value.store
    ensures db.txDepth == old(db.txDepth) && db.events == old(db.events) && db.snapshot == old(db.snapshot)
  {
    ghost var sync := SyncerOf(configs, hash, toMarkdown, keys);
    var e := Export(db.store, c, [], used, {});
    ghost var e0 := e;
    for i := 0 to |groups|
      invariant db.Valid()
      invariant ExportAll(e0, groups[..i], deckIds, sync) == Ok(e)
      invariant db.store == e.store
      invariant db.txDepth == old(db.txDepth) && db.events == old(db.events) && db.snapshot == old(db.snapshot)
    {
      var g := groups[i];
      assert groups[..i + 1][..i] == groups[..i];
      if g.deckName == "Default" {
        continue;
      }
      if g.deckName !in deckIds {
        ExportErrorAborts(e0, groups, i + 1, deckIds, sync);
        return Err("KeyError: " + g.deckName);
      }
      var d := SyncDeck(db, e.cache, g.deckName, g.notes, configs, g.file, hash, toMarkdown, keys, e.used);
      assert d == sync(e.cache, g, e.used);
      if d.Err? {
        ExportErrorAborts(e0, groups, i + 1, deckIds, sync);
        return Err(d.error);
      }
      db.SetDeck(g.deckName, deckIds[g.deckName]);
      e := Export(db.store, d.value.pass.cache, e.results + [d.value.result], d.value.pass.used, e.active + {g.stem});
    }
    assert groups[..|groups|] == groups;
    r := Ok(e);
  }

  /** The ids of the fetched notes. */
  function NoteIds(notes: seq<AnkiNote>): (r: seq<int>)
    ensures |r| == |notes| && forall i :: 0 <= i < |notes| ==> r[i] == notes[i].noteId
  {
    seq(|notes|, i requires 0 <= i < |notes| => notes[i].noteId)
  }

  /** The non-empty keys embedded in the fetched notes. */
  function EmbeddedKeys(notes: seq<AnkiNote>): set<string> {
    set a | a in notes && EmbeddedKey(a) != "" :: EmbeddedKey(a)
  }

  /** The caches `export_collection` starts from: the stored key of every
      fetched note that has one, and the stored fingerprint of every key
      that is either stored for a fetched note or embedded in one. */
  ghost function InitialCache(st: Db.Store, notes: seq<AnkiNote>): Cache
    requires Db.StoreValid(st)
  {
    var keys := map id | id in NoteIds(notes) && id in st.notes.Values :: Tables.KeyOf(st.notes, id).value;
    var candidates := keys.Values + EmbeddedKeys(notes);
    Cache(keys, [], map k | k in candidates && k in st.fingerprints :: st.fingerprints[k], [])
  }

  /** The elements of a set, in some order. */
  method Listed(s: set<string>) returns (r: seq<string>)
    ensures forall k :: k in r <==> k in s
  {
    r := [];
    var rest := s;
    while rest != {}
      invariant forall k :: k in s <==> k in r || k in rest
      invariant rest <= s
      decreases rest
    {
      var k :| k in rest;
      r := r + [k];
      rest := rest - {k};
    }
  }

  /** The bulk reads before the deck loop. */
  method LoadCaches(db: Db.SqliteDb, notes: seq<AnkiNote>) returns (c: Cache)
    requires db.Valid()
    ensures c == InitialCache(db.store, notes)
  {
    var keys := db.GetNoteKeysBulk(NoteIds(notes));
    var embedded: seq<string> := [];
    for i := 0 to |notes|
      invariant forall k :: k in embedded <==> k in EmbeddedKeys(notes[..i])
    {
      assert notes[..i + 1] == notes[..i] + [notes[i]];
      var k := EmbeddedKey(notes[i]);
      if k != "" {
        embedded := embedded + [k];
      }
    }
    assert notes[..|notes|] == notes;
    var stored := Listed(keys.Values);
    var fps := db.GetNoteFingerprintsBulk(stored + embedded);
    c := Cache(keys, [], fps, []);
    KeysAreInitial(db.store, notes, keys);
  }

  lemma KeysAreInitial(st: Db.Store, notes: seq<AnkiNote>, keys: map<int, string>)
    requires Db.StoreValid(st)
    requires forall id :: id in keys <==> id in NoteIds(notes) && id in st.notes.Values
    requires forall id :: id in keys ==> keys[id] in st.notes && st.notes[keys[id]] == id
    ensures keys == InitialCache(st, notes).noteKeys
  {
    var m := InitialCache(st, notes).noteKeys;
    assert m == map id | id in NoteIds(notes) && id in st.notes.Values :: Tables.KeyOf(st.notes, id).value;
    forall id
      ensures id in keys <==> id in m
    {
      assert id in m <==> id in NoteIds(notes) && id in st.notes.Values;
    }
    assert keys.Keys == m.Keys;
    forall id | id in keys
      ensures keys[id] == Tables.KeyOf(st.notes, id).value
    {
      var k := Tables.KeyOf(st.notes, id).value;
      assert st.notes[k] == st.notes[keys[id]];
    }
  }

  /** `export_collection` once the notes, decks, files and configs are
      read: the results of every deck, the deleted files, and the store. */
  ghost function CollectionSpec(st: Db.Store, notes: seq<AnkiNote>, groups: seq<DeckGroup>, deckIds: map<string, int>,
                                configs: map<string, Models.NoteTypeConfig>, hash: Hasher, toMarkdown: string -> string,
                                keys: nat -> string, used: nat, stems: seq<string>, present: set<string>,
                                deckNameOf: string -> string)
    : Result<(seq<NoteSyncResult>, seq<Change>, Db.Store)>
    requires Db.StoreValid(st)
  {
    match ExportAll(Export(st, InitialCache(st, notes), [], used, {}), groups, deckIds, SyncerOf(configs, hash, toMarkdown, keys))
    case Err(m) => Err(m)
    case Ok(e) =>
      var c := e.cache;
      var queued := e.store.(
        notes := if |c.mappings| > 0 then Db.PutAll(e.store.notes, c.mappings) else e.store.notes,
        fingerprints := if |c.pendingFps| > 0 then Db.InsertFps(e.store.fingerprints, c.pendingFps)
                        else e.store.fingerprints);
      var orphans := OrphanFiles(stems, present, e.active);
      Ok((e.results, FileDeletes(orphans), queued.(decks := queued.decks - DeckNames(orphans, deckNameOf))))
  }

  /** `export_collection` inside its transaction: when it is the outermost
      one, a failed export leaves the store as it was. */
  method ExportCollection(db: Db.SqliteDb, notes: seq<AnkiNote>, groups: seq<DeckGroup>, deckIds: map<string, int>,
                          configs: map<string, Models.NoteTypeConfig>, hash: Hasher, toMarkdown: string -> string,
                          keys: nat -> string, used: nat, stems: seq<string>, present: set<string>,
                          deckNameOf: string -> string)
    returns (r: Result<(seq<NoteSyncResult>, seq<Change>)>)
    requires db.Valid()
    modifies db
    ensures db.Valid() && db.txDepth == old(db.txDepth)
    ensures Db.StoreValid(old(db.store))
    ensures r.Ok? ==> CollectionSpec(old(db.store), notes, groups, deckIds, configs, hash, toMarkdown, keys, used,
                                     stems, present, deckNameOf) == Ok((r.value.0, r.value.1, db.store))
    ensures r.Err? ==> CollectionSpec(old(db.store), notes, groups, deckIds, configs, hash, toMarkdown, keys, used,
                                      stems, present, deckNameOf) == Err(r.error)
    ensures r.Err? && old(db.txDepth) == 0 ==> db.store == old(db.store)
  {
    var isOuter := db.Enter();
    var c := LoadCaches(db, notes);
    var e := ExportDecks(db, c, groups, deckIds, configs, hash, toMarkdown, keys, used);
    if e.Err? {
      db.Exit(isOuter, true);
      return Err(e.error);
    }
    StoreQueued(db, e.value.cache);
    var extra := RemoveOrphanFiles(db, stems, present, e.value.active, deckNameOf);
    db.Exit(isOuter, false);
    r := Ok((e.value.results, extra));
  }
}
