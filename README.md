# AnkiOps in Dafny

AnkiOps keeps an Anki collection and a folder of Markdown deck files in step,
in both directions. Each note carries a stable note key, and a SQLite store
maps keys to Anki note ids, deck names to deck ids, and keys to the
fingerprints of their last sync. Media files are renamed to content-hashed
names and copied between the folder and Anki. Note types are declared with
line prefixes that identify them. A collection can be serialized to JSON,
and LLM tasks or inline AI prompts can then edit the notes' fields.

The Dafny modules follow the source files one by one:

- **Identity stores:** `Db` (`ankiops/db.py`, a class over four tables with nested transactions) and `KeyMap` (`ankiops/key_map.py`).
- **Markdown side:** `Fs` (`ankiops/fs.py`, the line-by-line block reader and note-type inference), `Models` (`ankiops/models.py`, note types and note validation), `SyncSummaries` (the summaries in `ankiops/models.py`), `NoteTypes` (`ankiops/note_type_config.py`), `Config` (`ankiops/config.py`).
- **Sync planning:**
  - `ImportNotes` (`ankiops/import_notes.py`) and `MarkdownToAnki` (`ankiops/markdown_to_anki.py`) go from Markdown to Anki.
  - `ExportNotes` (`ankiops/export_notes.py`) and `AnkiToMarkdown` (`ankiops/anki_to_markdown.py`) go from Anki to Markdown.
  - `CollectionSerializer` (`ankiops/collection_serializer.py`), `SyncMedia` (`ankiops/sync_media.py`) and `NoteTypeSync` (`ankiops/sync_note_types.py`) cover the serializer, media and note types.
- **LLM tasks:** `LlmModels`, `LlmConfigLoader` and `LlmRunner` (`ankiops/llm/`).
- **AI prompts:**
  - `Ai` (`ankiops/ai.py`) and `AiRunner` (`ankiops/ai/runner.py`).
  - `TaskSelection`, `TaskExecution`, `TaskApply` and `Validators` (`ankiops/ai/`).
  - `ModelConfig`, `ModelProfiles`, `Providers`, `TaskConfig`, `PromptLoader` and `Prompts` (`ankiops/ai/`), with `AiFiles` for what those loaders share.
- **Shared helpers:**
  - `Wrappers` (Option/Result) and `Text` (Python's string operations).
  - `Json` (JSON-compatible values with insertion-ordered objects) and `Dicts` (insertion-ordered dicts).
  - `Seqs`, `Tables`, `Sorting`, `Chunking` (list slicing) and `Glob` (`fnmatch.fnmatchcase`).

The source's own forms are kept:

- Code that changes state step by step becomes classes and methods with loops. Each is proved equal to a specification function on values.
- Pure code becomes functions. Lemmas state what the source promises about them.
- The Anki transport, the file system, the LLM providers, the clock and the hash functions are parameters: maps, sets of present paths, or functions supplied by the caller.
- `KeyMap.generate_key` (`ankiops/key_map.py:153-156`) is the same code as the adapter's key generator. It is modelled once, as `Db.GenerateKey`.

## Model

| member | source | states |
|---|---|---|
| Db.LastWinsShape | ankiops/db.py:169-179 | the rows `set_notes_bulk` keeps are input rows, pairwise distinct in key and in id, and the last input row is always kept |
| Db.InsertDistinctAt | ankiops/db.py:189-192 | inserting rows with distinct keys and ids binds a key to an id exactly when that row was inserted, or no row names the key and it already held the id |
| Db.SetNotesBulkInjective | ankiops/db.py:163-192 | the bulk write keeps the notes table one-to-one (no id under two keys) |
| Db.SingleRowIsPut | ankiops/db.py:288-289 | `set_note` (the bulk write of one row) frees the id from whichever key held it and binds the key to it |
| Db.SurvivesAppend | ankiops/db.py:163-164 | appending a row: an earlier row survives exactly when it survived before and shares neither key nor id with the new row |
| Db.HoldsAppend | ankiops/db.py:163-164 | after one more `set_note`, a key holds an id exactly when that is the new row, or an older binding clashing with it neither in key nor in id |
| Db.PutAllAt | ankiops/db.py:163-164 | after `set_note` on each row in turn, a key holds an id exactly when a row not overwritten later says so, or the key was never written and its id never reassigned |
| Db.PutAllInjective | ankiops/db.py:288-289 | `set_note` on each row in turn keeps the notes table one-to-one |
| Db.SetNotesBulkNotSequential | ankiops/db.py:163-192 | on an empty table the rows `(a,1), (b,1), (b,2)` leave `a -> 1` behind in the bulk write, while `set_note` in turn leaves only `b -> 2` |
| Db.SurvivesCons | ankiops/db.py:169-179 | survival of the first row and of the later rows, stated over the tail |
| Db.SurvivorsShape | ankiops/db.py:163-164 | the rows the corrected bulk write keeps are input rows, pairwise distinct in key and id |
| Db.SurvivorsAt | ankiops/db.py:163-164 | an input row is kept by the corrected bulk write exactly when no later row shares its key or its id |
| Db.SequentialAt | ankiops/db.py:163-164 | the corrected bulk write and `set_note` in turn agree at every key and id |
| Db.SequentialSpecIsPutAll | ankiops/db.py:163-164 | the corrected bulk write equals `set_note` applied to each row in turn, as the docstring promises |
| Db.InsertFpsAt | ankiops/db.py:244-250 | after inserting fingerprint entries, a named key holds the fingerprint of its last entry, and an unnamed key keeps its stored fingerprint or stays absent |
| Db.LastPerKeySameStore | ankiops/db.py:236-250 | keeping only the last entry per key stores the same fingerprints as inserting every entry |
| Db.SqliteDb.constructor | ankiops/db.py:24-74 | a freshly loaded database has empty tables, depth 0 and no transaction statements |
| Db.SqliteDb.Enter | ankiops/db.py:84-90 | entering `transaction()` raises the depth by one and sends BEGIN only at the outermost level; no table changes |
| Db.SqliteDb.Exit | ankiops/db.py:91-101 | leaving `transaction()` lowers the depth by one; at the outermost level it sends ROLLBACK and restores the tables when the body raised, COMMIT otherwise |
| Db.SqliteDb.SetNoteInTransaction | ankiops/db.py:84-101 | a `set_note` inside `transaction()` returns the depth to its entry value, sends BEGIN and COMMIT/ROLLBACK only at the outermost level, and an outermost rollback undoes the write |
| Db.SqliteDb.Chunked | ankiops/db.py:129-131 | `_chunked` yields consecutive slices of at most 500 items |
| Db.SqliteDb.DeleteIdsInChunks | ankiops/db.py:181-188 | the chunked `DELETE ... WHERE id IN` statements remove exactly the rows whose id is listed |
| Db.SqliteDb.DeleteKeysInChunks | ankiops/db.py:194-210 | the chunked `DELETE ... WHERE key IN` statements remove exactly the listed keys |
| Db.SqliteDb.InsertRows | ankiops/db.py:189-192 | `INSERT OR REPLACE` of each row in turn |
| Db.SqliteDb.InsertFpRows | ankiops/db.py:246-250 | `INSERT OR REPLACE` of each fingerprint entry in turn |
| Db.SqliteDb.GetNoteIdsBulk | ankiops/db.py:133-146 | the result maps exactly the given keys that are stored to their stored ids |
| Db.SqliteDb.GetNoteKeysBulk | ankiops/db.py:148-161 | the result holds exactly the given ids that are stored, each mapped to the key that holds it |
| Db.SqliteDb.GetNoteFingerprintsBulk | ankiops/db.py:212-228 | the result maps exactly the given keys that have a stored fingerprint to it |
| Db.SqliteDb.GetNoteId | ankiops/db.py:278-281 | the stored id of a key, `None` exactly when the key is not stored |
| Db.SqliteDb.GetNoteKey | ankiops/db.py:283-286 | the key holding an id, `None` when none does |
| Db.SqliteDb.GetDeckId | ankiops/db.py:299-302 | the stored id of a deck name, `None` exactly when the name is not stored |
| Db.SqliteDb.GetDeckName | ankiops/db.py:304-307 | the deck name holding an id, `None` when none does |
| Db.SqliteDb.GetConfig | ankiops/db.py:267-270 | the stored value of a config key, `None` exactly when it is not stored |
| Db.SqliteDb.LastWriteWins | ankiops/db.py:169-179 | the reversed scan with seen keys and ids keeps the rows `LastWins` describes, in input order |
| Db.SqliteDb.SetNotesBulk | ankiops/db.py:163-192 | the notes table becomes the as-written bulk write of the rows (kept ids deleted, kept rows inserted); the other tables, depth and statements log are unchanged, and the table stays one-to-one |
| Db.SqliteDb.SurvivingRows | ankiops/db.py:169-179 | the corrected scan keeps exactly the rows no later row overwrites |
| Db.SqliteDb.SetNotesBulkSequential | ankiops/db.py:163-164 | the corrected bulk write leaves the notes table as `set_note` on each row in turn would |
| Db.SqliteDb.SetNote | ankiops/db.py:288-289 | the id is freed from whichever key held it and bound to the key; nothing else changes |
| Db.SqliteDb.RemoveNotesByKeysBulk | ankiops/db.py:194-210 | the listed keys leave both the notes and the fingerprints table; nothing else changes |
| Db.SqliteDb.RemoveNoteByKey | ankiops/db.py:291-292 | one key leaves the notes and the fingerprints table |
| Db.SqliteDb.RemoveNoteById | ankiops/db.py:294-297 | every key holding the id leaves the notes table |
| Db.SqliteDb.DedupeFingerprints | ankiops/db.py:236-243 | the reversed scan keeps the last entry per key, in input order |
| Db.SqliteDb.SetNoteFingerprintsBulk | ankiops/db.py:230-250 | the fingerprints table becomes the stored one with every entry inserted in turn |
| Db.SqliteDb.RemoveNoteFingerprintsByKeysBulk | ankiops/db.py:252-265 | the listed keys leave the fingerprints table; nothing else changes |
| Db.SqliteDb.SetConfig | ankiops/db.py:272-276 | the config key is bound to the value; nothing else changes |
| Db.SqliteDb.SetDeck | ankiops/db.py:309-318 | the deck id is freed from whichever name held it and bound to the name; nothing else changes |
| Db.SqliteDb.RemoveDeck | ankiops/db.py:320-321 | the name leaves the decks table; nothing else changes |
| Db.GenerateKey | ankiops/db.py:323-324 | a key is twelve lower-case hexadecimal digits (six random bytes, given as a parameter); this also models `KeyMap.generate_key` (ankiops/key_map.py:153-156), which is the same code |
| KeyMap.KeyMap.constructor | ankiops/key_map.py:31-72 | loading a new key map creates the note and deck tables empty |
| KeyMap.KeyMap.GetNoteId | ankiops/key_map.py:84-89 | the id bound to a note key, `None` exactly when the key is unbound |
| KeyMap.KeyMap.GetNoteKey | ankiops/key_map.py:95-99 | the key holding a note id, `None` exactly when no key holds it |
| KeyMap.KeyMap.GetKey | ankiops/key_map.py:91-93 | the alias answers as `get_note_key` |
| KeyMap.KeyMap.SetNote | ankiops/key_map.py:101-111 | the id is freed from any other key and bound to the key; the deck table is unchanged and the note table stays one-to-one |
| KeyMap.KeyMap.RemoveNoteByKey | ankiops/key_map.py:113-116 | the key leaves the note table; nothing else changes |
| KeyMap.KeyMap.RemoveNoteById | ankiops/key_map.py:118-121 | the keys holding the id leave the note table; nothing else changes |
| KeyMap.KeyMap.GetDeckId | ankiops/key_map.py:125-129 | the id bound to a deck key, `None` exactly when the key is unbound |
| KeyMap.KeyMap.GetDeckKey | ankiops/key_map.py:131-135 | the key holding a deck id, `None` exactly when no key holds it |
| KeyMap.KeyMap.SetDeck | ankiops/key_map.py:137-144 | the deck id is freed from any other key and bound to the key; the note table is unchanged |
| KeyMap.KeyMap.RemoveDeckByKey | ankiops/key_map.py:146-149 | the key leaves the deck table; nothing else changes |
| KeyMap.SetNoteLookups | ankiops/key_map.py:101-111 | after `set_note(key, id)` both lookups return the new pair, another key keeps its id unless it held `id`, and loses it if it did |
| KeyMap.LookupsInverse | ankiops/key_map.py:84-99 | in a one-to-one table, a key's id and that id's key are inverse lookups, both ways |
| Fs.KeyEndLongest | ankiops/fs.py:26 | the key group of the note-key pattern ends at the last place a closing ` -->` can follow it (the regex's greedy backtracking), and no key is found when none can |
| Fs.NoteKeyOf | ankiops/fs.py:26 | a key read from a `<!-- note_key: ... -->` line is non-empty and made of letters, digits and `-` |
| Fs.KeyCommentRoundTrip | ankiops/fs.py:26 | the key comment written for a key, followed by anything, reads back as that key |
| Fs.KeyCommentHead | ankiops/fs.py:26 | the opening `<!-- note_key: ` of a key comment is matched by the pattern's prefix |
| Fs.KeyCommentTail | ankiops/fs.py:26 | the key and closing ` -->` of a key comment are matched by the pattern's tail |
| Fs.FirstOpening | ankiops/fs.py:82-85 | the prefix chosen for a line is the first in table order that the line opens (`prefix + " "` or the bare prefix), and none is chosen when no prefix opens it |
| Fs.PutFieldsCovers | ankiops/fs.py:50-55 | every non-empty prefix of a configured field enters the prefix table |
| Fs.PrefixTableEntries | ankiops/fs.py:50-55 | a prefix is in the table exactly when some configured field carries it, and it maps to the name of the last such field |
| Fs.PutFieldsKeeps | ankiops/fs.py:50-55 | adding a type's fields never removes a prefix |
| Fs.ClosedWellFormed | ankiops/fs.py:96-97 | closing the open field keeps the block's fields distinct and well formed and adds its name |
| Fs.OpenKept | ankiops/fs.py:94-105 | opening a field not yet seen keeps what the line loop keeps |
| Fs.StepOpens | ankiops/fs.py:82-105 | the line that opens a field does so by a prefix of the table |
| Fs.StepKept | ankiops/fs.py:67-110 | one pass of the line loop keeps the fields distinct, under configured names, with stripped text |
| Fs.RunKept | ankiops/fs.py:67-110 | the whole line loop keeps that invariant |
| Fs.BlockFieldsWellFormed | ankiops/fs.py:61-119 | a block read without error has at least one field, each name once and configured, and its key (if any) is a well-formed key |
| Fs.BlockFieldsState | ankiops/fs.py:112-119 | a block read without error ends with the open field closed and at least one field |
| Fs.RunAppend | ankiops/fs.py:67-110 | the line loop over `a + b` is the loop over `a` continued over `b` |
| Fs.RunKeyIsLast | ankiops/fs.py:72-75 | a block's note key is the key of its last key line, whatever came before |
| Fs.StepSameButKey | ankiops/fs.py:72-75 | one pass of the loop from two states that differ only in the key succeeds alike and ends alike but for the key |
| Fs.RunSameButKey | ankiops/fs.py:72-75 | the same holds for the whole loop |
| Fs.KeyLineTransparent | ankiops/fs.py:72-75 | a key line outside a fence changes nothing but the key: the block reads (or fails) as it would without it |
| Fs.FencedLinesVerbatim | ankiops/fs.py:77-80 | inside a code fence, lines are appended to the open field verbatim, prefixes included |
| Fs.StepFenced | ankiops/fs.py:77-80 | one fenced line is appended to the open field |
| Fs.StepPlain | ankiops/fs.py:109-110 | outside a fence, a line that opens no prefix extends the open field |
| Fs.PlainLinesExtend | ankiops/fs.py:109-110 | outside a fence, lines that open no prefix extend the open field in order |
| Fs.PlainLinesDropped | ankiops/fs.py:109-110 | lines before the first field are dropped |
| Fs.PrefixLine | ankiops/fs.py:82-105 | a prefix line of a field already seen fails with the duplicate-field error; otherwise it closes the open field and opens the new one with the rest of the line after `prefix + " "` |
| Fs.FieldNamesIff | ankiops/fs.py:147-150 | the type's field names (or identifying field names) are exactly the names of its (identifying) fields |
| Fs.ChoiceNamesIff | ankiops/fs.py:152-155 | the choice fields are exactly the type's field names containing `Choice` |
| Fs.CandidatesNone | ankiops/fs.py:164-167 | there is no candidate exactly when no configured type accepts the note's fields |
| Fs.CandidatesOnly | ankiops/fs.py:145-162 | a sole accepting type is the whole candidate list |
| Fs.CandidatesSingle | ankiops/fs.py:145-162 | a single candidate name comes from a sole accepting type |
| Fs.CandidatesTwo | ankiops/fs.py:168-171 | two accepting types give at least two candidates |
| Fs.InferIff | ankiops/fs.py:140-172 | the inferred type is `t` exactly when `t` is the name of the only type whose fields contain the note's fields and whose identifying fields (for choice types: non-choice identifying fields and at least one choice field) the note has; with no such type the "Cannot determine" error, with two or more the "Ambiguous" error listing them |
| Fs.FirstNamed | ankiops/fs.py:124 | `next(c for c in configs if c.name == note_type)` is the first configuration of that name |
| Fs.InferNamesConfig | ankiops/fs.py:140-172 | an inferred type is the name of a configured type |
| Fs.OutcomesAt | ankiops/fs.py:57-131 | each block's outcome is decided by that block alone |
| Fs.GatherIff | ankiops/fs.py:57-137 | the read succeeds exactly when every block not skipped reads, and then the notes are those blocks' notes, in order |
| Fs.GatherErrSticks | ankiops/fs.py:57-131 | the first failing block's error is the read's error, whatever follows |
| Fs.GatherFrom | ankiops/fs.py:57-131 | every note read comes from a block of the file |
| Fs.ReadOkAll | ankiops/fs.py:42-137 | after a successful read, every block not skipped was read without error |
| Fs.ReadErrBlock | ankiops/fs.py:42-137 | a failed read names a block not skipped that failed |
| Fs.OutcomeOk | ankiops/fs.py:57-59 | a block's outcome is fine exactly when it is skipped (blank or only dashes) or reads without error |
| Fs.PresentCount | ankiops/fs.py:57-59 | one outcome per block not skipped |
| Fs.ReadCount | ankiops/fs.py:42-137 | a successful read returns one note per block that is neither blank nor only dashes |
| Fs.ReadBlockParts | ankiops/fs.py:61-131 | a note read from a block has the block's key and fields, the inferred type, which is configured, and passes `validate` against the first configuration of that name |
| Fs.ReadBlockAccepted | ankiops/fs.py:61-131 | every note read from a block has fields, well formed, a well-formed key, the only candidate type, and no validation error |
| Fs.ReadNoteFrom | ankiops/fs.py:42-137 | each note of a successful read is the outcome of one block of the file |
| Fs.ReadAccepted | ankiops/fs.py:42-137 | every note of a successful read is accepted as above |
| Fs.BuildPrefixTable | ankiops/fs.py:50-55 | the nested loop builds the prefix table, later fields overwriting earlier ones |
| Fs.FindOpening | ankiops/fs.py:82-85 | the scan over the prefix table finds the first prefix the line opens |
| Fs.RunErrSticks | ankiops/fs.py:88-95 | a duplicate field ends the block's line loop whatever lines follow |
| Fs.ApplyLine | ankiops/fs.py:67-110 | one pass of the line loop: fence toggles, key lines, fenced lines, prefix lines and plain lines as specified |
| Fs.RunLines | ankiops/fs.py:67-110 | the line loop over one block's lines computes the specified state or the duplicate-field error |
| Fs.ParseBlock | ankiops/fs.py:61-119 | one block's key and fields, or the duplicate-field or no-prefix error |
| Fs.Infer | ankiops/fs.py:140-172 | the candidate loop computes the specified inference |
| Fs.CheckCandidate | ankiops/fs.py:145-162 | the accept test of one configured type, for plain and for choice types |
| Fs.ReadAll | ankiops/fs.py:57-131 | the block loop stops at the first failing block and otherwise collects every note read, in order |
| Fs.ReadFailsAt | ankiops/fs.py:57-131 | a block that fails fails the whole read with its error |
| Fs.ReadOne | ankiops/fs.py:61-131 | one block: parse, infer, validate against the first configuration of the type |
| Fs.FileSystemAdapter.constructor | ankiops/fs.py:31-35 | a new adapter has no configured note types |
| Fs.FileSystemAdapter.SetConfigs | ankiops/fs.py:37-40 | the configured note types are replaced |
| Fs.FileSystemAdapter.ReadMarkdownFile | ankiops/fs.py:42-137 | reading a file's content gives the specified notes or the first block's error, whose properties are the lemmas above |
| Fs.FileSystemAdapter.InferNoteType | ankiops/fs.py:140-172 | inference over the configured note types, as `InferIff` states |
| Models.IdentifyingPrefixes | ankiops/models.py:41-45 | a prefix is identifying exactly when some identifying field of the type carries it |
| Models.Placements | ankiops/models.py:64-65 | each field of a type, paired with the type's name, in order |
| Models.ScanSnoc | ankiops/models.py:58-75 | the first pass over one more field is one more step of the prefix scan |
| Models.ScanPrefixesIff | ankiops/models.py:58-75 | the first pass succeeds exactly when no prefix is carried by two fields of different names, and then maps every carried prefix to its field name |
| Models.BuiltinPrefixes | ankiops/models.py:59-61 | the reserved prefixes are exactly the identifying prefixes of types whose name starts with `AnkiOps` |
| Models.FieldError | ankiops/models.py:80-99 | a field passes the reservation checks exactly when the reserved key field has no prefix and is not identifying, and a built-in prefix is used only by a built-in type |
| Models.FirstFieldError | ankiops/models.py:80-99 | the first field, in order, that fails the reservation checks, and none exactly when all pass |
| Models.FirstAmbiguity | ankiops/models.py:101-112 | no error exactly when every type of another name has different identifying prefixes |
| Models.ConfigCheck | ankiops/models.py:77-124 | a type passes the second pass exactly when its fields pass the reservation checks, its identifying prefixes are its own, and a choice type has a field whose name contains `choice` |
| Models.FirstConfigError | ankiops/models.py:77-124 | the second pass reports the first type, in order, that fails |
| Models.ValidateConfigsIff | ankiops/models.py:48-124 | `validate_configs` raises exactly when the prefix mapping is inconsistent, a reserved name or prefix is misused, two types share identifying prefixes, or a choice type has no choice field |
| Models.ScanFields | ankiops/models.py:64-75 | the inner loop over a type's fields continues the prefix scan |
| Models.ScanField | ankiops/models.py:65-75 | one field: a new prefix is recorded, the same name again is fine, a different name is the conflict error |
| Models.ScanConfigs | ankiops/models.py:58-75 | the first pass computes the prefix scan over all fields and the built-in prefixes |
| Models.CheckConfigs | ankiops/models.py:77-124 | the second pass stops at the first failing type with its error |
| Models.ValidateConfigs | ankiops/models.py:48-124 | raises (returns an error) exactly when the configurations break the rules `ValidateConfigsIff` states |
| Models.ScanConflictSticksFrom | ankiops/models.py:68-73 | a prefix conflict ends the first pass whatever fields follow |
| Models.FirstErrorSticks | ankiops/models.py:77-124 | once a type fails, the second pass ends with its error |
| Models.FirstLine | ankiops/models.py:150 | `content.split("\n")[0]` is the content's text before the first line break |
| Models.FirstFieldLine | ankiops/models.py:146-151 | the first line of the first non-empty field, or `""` when every field is empty |
| Models.FirstPopulatedLine | ankiops/models.py:146-151 | the loop over the fields' values returns at the first non-empty one |
| Models.Identifier | ankiops/models.py:138-144 | `note_key: <key>` for a keyed note; otherwise the first field line cut to 60 characters, quoted and followed by `...` |
| Models.ChoiceNames | ankiops/models.py:162-166 | the choice fields are the type's fields whose names contain `Choice`, in order; none exactly when no name does |
| Models.TrailingWord | ankiops/models.py:204 | `f.split()[-1]`: the trailing run of non-white-space characters |
| Models.ChoiceNumber | ankiops/models.py:204 | a name with no word raises `IndexError` |
| Models.ChoiceEntries | ankiops/models.py:203-206 | one entry per choice field: nothing when empty, else the number its last word reads as |
| Models.MaxOf | ankiops/models.py:203-206 | the largest number of a populated choice field, none when no choice is populated, and the first failing conversion's error otherwise |
| Models.PartValues | ankiops/models.py:194-196 | each comma-separated part of the answer, stripped, read as `int` reads it |
| Models.AllParsedIff | ankiops/models.py:195-201 | all answer parts convert exactly when each does, and then the values are theirs, in order |
| Models.FirstOutOfRange | ankiops/models.py:207-212 | the first answer outside `1..max_choice`, and none exactly when all are inside |
| Models.ChoiceAnswersIff | ankiops/models.py:188-213 | at most one error; none exactly when the answer is empty, or every part is an integer and all lie in `1..max_choice`; an error needs a non-empty answer |
| Models.MissingErrorsIff | ankiops/models.py:162-170 | no missing-field error exactly when every identifying, prefixed, non-choice field is filled, and each unfilled one is reported |
| Models.MissingErrorsNone | ankiops/models.py:162-170 | no missing-field error exactly when every mandatory field is filled |
| Models.MissingErrorsReported | ankiops/models.py:168-170 | every unfilled mandatory field has its error in the list |
| Models.ValidateIff | ankiops/models.py:153-186 | a note validates exactly when every mandatory field is filled, a cloze note has a cloze marker, and a note of a type with choice fields has at least two choices and a valid answer; every unfilled mandatory field is reported |
| Models.ScanNoteFields | ankiops/models.py:162-170 | the field loop collects the missing-field errors, the choice field names and the number of populated choices |
| Models.Validate | ankiops/models.py:153-186 | `Note.validate` returns the specified errors, in order |
| SyncSummaries.EntityKey | ankiops/models.py:311 | `c.entity_id or c.entity_repr`: a non-zero id or non-empty string id is the key, otherwise the representation |
| SyncSummaries.PriorityInjective | ankiops/models.py:287-300 | no two change types share a priority |
| SyncSummaries.AddLaws | ankiops/models.py:257-262 | adding summaries is field-wise: the empty summary is neutral, and addition commutes and associates |
| SyncSummaries.SumAllAppend | ankiops/models.py:376-377 | summing a concatenation of summaries is adding the two sums |
| SyncSummaries.Parts | ankiops/models.py:268-281 | one `"{val} {key}"` part per positive counter, in the listed order, and no parts exactly when every listed counter is zero |
| SyncSummaries.JoinStartsWithFirst | ankiops/models.py:284 | the joined parts start with the first part |
| SyncSummaries.NoPartsIff | ankiops/models.py:268-282 | there are no parts exactly when created, updated, deleted, moved, errors, hashed and synced are all zero |
| SyncSummaries.FormatNoChanges | ankiops/models.py:267-284 | the report is `no changes` exactly when those seven counters are zero; otherwise it starts with the first positive counter's part |
| SyncSummaries.FormatIgnoresTotalAndSkipped | ankiops/models.py:267-284 | `total` and `skipped` never reach the report |
| SyncSummaries.Bump | ankiops/models.py:397-398 | one named counter goes up by one and nothing else changes |
| SyncSummaries.EffectiveDomain | ankiops/models.py:309-314 | the deduplicated table has exactly the entities some change concerns |
| SyncSummaries.EffectiveAttained | ankiops/models.py:309-314 | each entity's kept type is the type of one of its changes |
| SyncSummaries.EffectiveDominates | ankiops/models.py:309-314 | each entity's kept type has the highest priority among its changes |
| SyncSummaries.EffectiveIsHighest | ankiops/models.py:309-314 | deduplication keeps, for every entity changed, exactly its change of highest priority |
| SyncSummaries.CountIsCard | ankiops/models.py:316-322 | counting along the entities once each counts the set of entities with a given type |
| SyncSummaries.TallyIsSummary | ankiops/models.py:316-322 | the tally loop over the kept types gives the same summary in any order |
| SyncSummaries.TallyExtends | ankiops/models.py:317-321 | one more entity adds its counter and, unless it is a delete or conflict, one to the total |
| SyncSummaries.ComputeSummary | ankiops/models.py:304-323 | `_compute_summary`: each entity is counted once under its highest-priority change, in its mapped counter; `total` counts entities not deleted or in conflict; `errors` is the error count |
| SyncSummaries.SelectSplit | ankiops/models.py:316-322 | counting by two disjoint sets of types counts each selection once |
| SyncSummaries.MediaTotal | ankiops/models.py:334-338 | for media, `total` is created + updated + moved + skipped + hashed + synced |
| SyncSummaries.MediaMappedTo | ankiops/models.py:334-338 | the media table sends each counted type to its own counter |
| SyncSummaries.CountedSplit | ankiops/models.py:316-322 | the counted entities split by their six types |
| SyncSummaries.EffectiveRepeat | ankiops/models.py:309-314 | a change log that repeats its own changes summarises like the log alone |
| SyncSummaries.MediaSummary | ankiops/models.py:354-361 | a media result's summary has `total` = the sum of its six counters and `errors` = its error count |
| SyncSummaries.NoteSummaries | ankiops/models.py:342-351 | each deck result's summary, in order |
| SyncSummaries.ImportSummarySplit | ankiops/models.py:371-378 | importing two batches of deck results sums to the two summaries added |
| SyncSummaries.ExtraCounts | ankiops/models.py:386-399 | the extra export changes add to the counters one per mapped change, and nothing to `total` or `errors` |
| SyncSummaries.MappedCountConflicts | ankiops/models.py:388-396 | only a conflict among the extra changes goes uncounted |
| SyncSummaries.AddBump | ankiops/models.py:397-398 | incrementing a counter commutes with adding a summary |
| SyncSummaries.SumNoteSummaries | ankiops/models.py:376-377 | the loop sums the deck results' summaries in order |
| SyncSummaries.AddExtraChanges | ankiops/models.py:397-398 | the loop over the extra changes adds their counts to the base summary |
| SyncSummaries.ExportSummary | ankiops/models.py:385-399 | `CollectionExportResult.summary` is the sum of the deck summaries plus one per mapped extra change, with the sum's total and errors |
| NoteTypes.PrefixIndex | ankiops/note_type_config.py:82-87 | the position of the first field with a prefix, and none exactly when no field has it |
| NoteTypes.FieldByPrefix | ankiops/note_type_config.py:82-87 | `get_field_by_prefix` returns the first field with the prefix, and `None` exactly when no field has it |
| NoteTypes.FieldReservation | ankiops/note_type_config.py:139-165 | a field passes exactly when its prefix and name are not common ones, and, for a custom type, not built-in ones either |
| NoteTypes.ReservationError | ankiops/note_type_config.py:155-165 | the first field, in order, that fails the reservation check |
| NoteTypes.ReservationIff | ankiops/note_type_config.py:139-165 | `_validate_reservation` raises exactly when some field uses a common prefix or name, or a custom type uses a built-in one |
| NoteTypes.ValidateReservation | ankiops/note_type_config.py:139-165 | the field loop raises the first failing field's error |
| NoteTypes.ReservationSticks | ankiops/note_type_config.py:155-165 | a failing field ends the check whatever fields follow |
| NoteTypes.PutFields | ankiops/note_type_config.py:258-261 | `mapping[field.prefix] = field.name` for each field keeps the dictionary well formed |
| NoteTypes.PutFieldsKeys | ankiops/note_type_config.py:258-261 | the table has the old prefixes and those of the fields |
| NoteTypes.PutFieldsAppend | ankiops/note_type_config.py:258-261 | filling in `a + b` is filling in `a`, then `b` |
| NoteTypes.PutEach | ankiops/note_type_config.py:259-261 | the inner loop of `prefix_to_field` over one type's fields |
| NoteTypes.TableStep | ankiops/note_type_config.py:258-261 | one more type's fields extend the table of the types before it |
| NoteTypes.CommonTable | ankiops/note_type_config.py:254-256 | the table of the common fields alone is well formed |
| NoteTypes.PrefixTableFlat | ankiops/note_type_config.py:251-261 | `prefix_to_field` is the table of the common fields followed by every registered type's fields |
| NoteTypes.TableFieldsMembers | ankiops/note_type_config.py:251-261 | a field is walked exactly when it is common or belongs to a registered type |
| NoteTypes.PrefixTableKeys | ankiops/note_type_config.py:251-261 | `prefix_to_field` has exactly the prefixes of the common and registered fields |
| NoteTypes.PutFieldsCoherent | ankiops/note_type_config.py:251-261 | over fields where a prefix always has one name, the table sends each prefix to that name |
| NoteTypes.FieldToPrefixInverse | ankiops/note_type_config.py:263-266 | `field_to_prefix` has exactly the field names of `prefix_to_field` as keys, and maps each back to a prefix that `prefix_to_field` sends to it |
| NoteTypes.ConsistencyError | ankiops/note_type_config.py:167-179 | the as-written check: the first field whose prefix the registry's table sends to another name |
| NoteTypes.ConsistencySticks | ankiops/note_type_config.py:171-179 | a conflicting field ends the as-written check |
| NoteTypes.ValidateGlobalConsistency | ankiops/note_type_config.py:167-179 | the as-written loop raises the first conflict with the registry's table |
| NoteTypes.OwnTableKeys | ankiops/note_type_config.py:167-179 | the corrected check's own table keeps the registry's entries and adds the fields' prefixes |
| NoteTypes.OwnTableValues | ankiops/note_type_config.py:167-179 | when the fields agree, the extended table sends each field's prefix to its name |
| NoteTypes.ConflictAtLast | ankiops/note_type_config.py:167-179 | a field that breaks agreement clashes with the extended table |
| NoteTypes.LastSelfConflict | ankiops/note_type_config.py:167-179 | a field that agrees with the registry but breaks agreement clashes with an earlier field of the same type |
| NoteTypes.CoherenceErrorIff | ankiops/note_type_config.py:167-179 | the corrected check passes exactly when every field agrees with the registry's table and with the type's other fields sharing its prefix |
| NoteTypes.ValidateCoherence | ankiops/note_type_config.py:167-179 | the corrected loop, extending its own copy of the table, raises the first conflict |
| NoteTypes.CoherenceSticks | ankiops/note_type_config.py:167-179 | a conflict ends the corrected check |
| NoteTypes.DistinctnessError | ankiops/note_type_config.py:181-193 | the first registered type of another name with the same identifying prefixes, none exactly when there is none |
| NoteTypes.DistinctnessSticks | ankiops/note_type_config.py:184-193 | a clash ends the distinctness check |
| NoteTypes.ValidateDistinctness | ankiops/note_type_config.py:181-193 | the loop over the registered types raises the first clash |
| NoteTypes.CoherentTable | ankiops/note_type_config.py:251-261 | in a registry where a prefix always has one name, `prefix_to_field` sends every registered field's prefix to its name |
| NoteTypes.RegisterKeepsCoherence | ankiops/note_type_config.py:127-137 | a type that passes the corrected checks keeps every prefix of the registry bound to one field name |
| NoteTypes.RegisterKeepsValid | ankiops/note_type_config.py:127-137 | `register` keeps the registry valid: each type under its own name, prefixes coherent |
| NoteTypes.AgreeingPair | ankiops/note_type_config.py:167-179 | two fields, each new or registered, sharing a prefix share a name once the corrected check passes |
| NoteTypes.NoteTypeRegistry.Get | ankiops/note_type_config.py:195-199 | the registered type, or `KeyError: Unknown note type` exactly when the name is not registered |
| NoteTypes.NoteTypeRegistry.NoteConfig | ankiops/note_type_config.py:268-280 | every registered type maps to its own `(name, prefix)` pairs, then the common fields' pairs |
| NoteTypes.NoteTypeRegistry.IdentifyingFields | ankiops/note_type_config.py:282-292 | every registered type maps to its own `(name, prefix)` pairs, which are `note_config` without the common fields |
| NoteTypes.NoteTypeRegistry.PrefixToField | ankiops/note_type_config.py:251-261 | the two loops of `prefix_to_field` compute the specified table |
| NoteTypes.NoteTypeRegistry.Register | ankiops/note_type_config.py:127-137 | the three checks run in order and the first error is raised with the registry unchanged; otherwise the type is stored under its name (replacing one of that name); the corrected consistency check is used |
| NoteTypes.NoteTypeRegistry.constructor | ankiops/note_type_config.py:101-125 | a new registry holds the five built-in types, in order, with the reserved names and prefixes of their fields |
| NoteTypes.NoteTypeRegistry.RegisterBuiltin | ankiops/note_type_config.py:124-125 | each built-in type passes the checks against those before it and is stored |
| NoteTypes.ValidateRegistration | ankiops/note_type_config.py:133-135 | the three checks of `register`, in order: the first that fails |
| NoteTypes.PutCommon | ankiops/note_type_config.py:254-256 | the loop over the common fields builds their table |
| NoteTypes.BuildPrefixTable | ankiops/note_type_config.py:251-261 | the loops over the common and registered fields build `prefix_to_field` |
| NoteTypes.CollectBuiltinFields | ankiops/note_type_config.py:117-121 | the reserved sets are the built-in types' field names and prefixes |
| NoteTypes.AddFields | ankiops/note_type_config.py:119-121 | one type's field names and prefixes join the reserved sets |
| NoteTypes.CommonKnown | ankiops/note_type_config.py:23-29 | the common fields' prefixes and names are the known ones |
| NoteTypes.BuiltinsKnown | ankiops/note_type_config.py:31-53 | each built-in type's fields use known prefix/name pairs and no common name |
| NoteTypes.BuiltinPrefixItems | ankiops/note_type_config.py:108-125 | after the first `k` built-ins, the `i`-th sits under its name |
| NoteTypes.FreshRegistry | ankiops/note_type_config.py:101-125 | a fresh registry holds exactly the five built-in types, in order |
| NoteTypes.BuiltinNamesDistinct | ankiops/note_type_config.py:108-115 | the built-in type names are distinct |
| NoteTypes.BuiltinPrefixCoherent | ankiops/note_type_config.py:101-125 | the built-in registry binds each prefix to one field name |
| NoteTypes.BuiltinPrefixSets | ankiops/note_type_config.py:31-53 | the identifying prefixes of QA, Reversed, Cloze and Input are `{Q:, A:}`, `{F:, B:}`, `{T:}` and `{Q:, I:}` |
| NoteTypes.BuiltinsDistinct | ankiops/note_type_config.py:181-193 | no two built-in types share identifying prefixes |
| NoteTypes.BuiltinReservation | ankiops/note_type_config.py:139-165 | no built-in type uses a common name or prefix |
| NoteTypes.BuiltinCoherence | ankiops/note_type_config.py:167-179 | each built-in type agrees with the table of the types before it |
| NoteTypes.BuiltinRegisters | ankiops/note_type_config.py:124-125 | each built-in type passes the three checks against those before it, so `__init__` raises nothing |
| NoteTypes.BuiltinDistinctness | ankiops/note_type_config.py:181-193 | no earlier built-in type has the next one's identifying prefixes |
| NoteTypes.DuplicatePrefixRegistered | ankiops/note_type_config.py:167-179 | a custom type with fields `X` and `Y` both under `Z:` passes the as-written checks against the built-in registry, the corrected check refuses it, and storing it leaves `Z:` with two names |
| NoteTypes.DuplicateAccepted | ankiops/note_type_config.py:167-179 | the same holds against any registry without `Z:` and without a clash |
| NoteTypes.StoredIncoherent | ankiops/note_type_config.py:137 | storing that type leaves the registry incoherent |
| NoteTypes.SamePrefixTwice | ankiops/note_type_config.py:171-179 | the as-written loop never compares a type's own fields with each other; the corrected one does |
| Config.SanitizeFilename | ankiops/config.py:15-42 | a deck name is refused exactly when it holds a character invalid in file names or its first segment is a reserved Windows device name. The first refusal's message lists the invalid characters as a Python list and ends "Please rename the deck in Anki to remove these."; the second names the upper-cased segment and ends "Please rename the deck in Anki.". Otherwise every `::` becomes `__` and no `::` is left |
| Config.InvalidFound | ankiops/config.py:21 | the listed characters are exactly the invalid characters the deck name holds, and the list is empty exactly when it holds none |
| Config.InvalidFoundIff | ankiops/config.py:21 | the list comprehension over the raw string of invalid characters (slash, backslash twice, question mark, star, bar, double quote, angle brackets) finds exactly the name's characters that are invalid in file names |
| Config.FoundMembers | ankiops/config.py:21 | `[c for c in order if c in name]` holds exactly the characters of `order` that `name` holds |
| Config.FoundNone | ankiops/config.py:21 | the comprehension is empty when `name` holds no character of `order` |
| Config.FoundAppend | ankiops/config.py:21 | the comprehension over `a + b` is that over `a` followed by that over `b` |
| Config.FoundHead | ankiops/config.py:21 | over `[p, q, q, r]`, a name holding `q` and `r` but not `p` lists `q` twice, then `r` |
| Config.FoundExample | ankiops/config.py:21 | for the name `a\b?`, the comprehension lists the backslash twice (the raw string holds it twice), then `?` |
| Config.ReprExample | ankiops/config.py:22-25 | the list of a backslash, a backslash and `?` prints as `['\\', '\\', '?']` |
| Config.BackslashListedTwice | ankiops/config.py:21-25 | the deck name `a\b?` is refused with a message listing `['\\', '\\', '?']` followed by the rename sentence |
| Config.ReplaceColons | ankiops/config.py:40-42 | replacing `::` by `__` leaves no `::`, and a name without `::` is unchanged |
| Config.SanitizeRoundTrip | ankiops/config.py:40-42 | for a deck name without `_`, turning `__` back into `::` recovers the deck name |
| Config.ReservedRefused | ankiops/config.py:33-38 | a first segment that upper-cases to a reserved name is refused whatever follows its `::` |
| ImportNotes.NamesCons | ankiops/import_notes.py:92-95 | the names of a field list grow by the head's name |
| ImportNotes.SetItemSets | ankiops/import_notes.py:198 | `d[k] = v` leaves `(k, v)` in the dict, adds only that pair and adds `k` to the names |
| ImportNotes.SetDefault | ankiops/import_notes.py:99 | `setdefault` keeps the dict when the key is there and otherwise appends `(k, v)`; either way the key is then present |
| ImportNotes.Converted | ankiops/import_notes.py:92-95 | one converted field per note field, in order, each the converter applied to its content |
| ImportNotes.WithDefaults | ankiops/import_notes.py:96-99 | the defaults loop keeps the converted fields as a prefix, adds only empty values, and adds exactly the names of the prefixed fields of the note type |
| ImportNotes.ToHtml | ankiops/import_notes.py:89-100 | the loop computes `_to_html`'s specification |
| ImportNotes.ToHtmlCovers | ankiops/import_notes.py:89-100 | the HTML starts with every note field converted, covers every prefixed field of the note type, and fills the rest with `""` |
| ImportNotes.HtmlMatchMeans | ankiops/import_notes.py:103-104 | `_html_match` holds exactly when Anki has every field of the HTML with the same value |
| ImportNotes.KeyedStepShape | ankiops/import_notes.py:139-212 | a keyed note gives exactly one create, update, skip or error, at most one move, uses no new key, and any create carries the note's own key |
| ImportNotes.NoteStepShape | ankiops/import_notes.py:135-226 | each note gives exactly one create, update, skip or error and at most one move; a new key is used exactly when the note has none, and a keyless note is created under the new key with nothing else touched |
| ImportNotes.UnresolvedCreates | ankiops/import_notes.py:139-173 | a keyed note whose id cannot be resolved (neither in the table nor recovered) is created under its own key |
| ImportNotes.MismatchOnlyErrs | ankiops/import_notes.py:191-195 | a keyed note errs only on a note-type mismatch with the Anki note, and then produces only that message |
| ImportNotes.SkipIffEqual | ankiops/import_notes.py:197-212 | with a matching note type, the note is skipped exactly when Anki already holds every field sent (key field included), and otherwise updated with exactly those fields |
| ImportNotes.KeyMismatchForcesUpdate | ankiops/import_notes.py:197-198 | when Anki's key field differs from the note's key, the note is updated and the update sends the key |
| ImportNotes.RecoveryRecorded | ankiops/import_notes.py:140-146 | a key missing from the table but found in Anki is recorded with the first id found; otherwise the table is unchanged |
| ImportNotes.AllStepsOk | ankiops/import_notes.py:135-226 | every note's step meets the shape guarantees above |
| ImportNotes.FoldCounts | ankiops/import_notes.py:135-226 | for any step with those guarantees, the notes split exactly into creates, updates, skips and errors, moves never exceed the notes, and one new key is used per keyless note |
| ImportNotes.ClassifyCounts | ankiops/import_notes.py:135-226 | the same counts for the classification loop of `_sync_file` |
| ImportNotes.FoldCreations | ankiops/import_notes.py:213-226 | for any such step, every create carries the note's own key or one of the new keys handed out |
| ImportNotes.ClassifyCreations | ankiops/import_notes.py:135-226 | the same for the classification loop of `_sync_file` |
| ImportNotes.SyncNote | ankiops/import_notes.py:135-226 | one note's step on the key store: the store's note table becomes the step's table, nothing else changes |
| ImportNotes.SyncNotes | ankiops/import_notes.py:135-226 | the loop over the notes computes the classification and changes only the note table |
| ImportNotes.MarkdownIdsSnoc | ankiops/import_notes.py:228-233 | the markdown ids grow note by note |
| ImportNotes.CollectMarkdownIds | ankiops/import_notes.py:228-233 | the loop collects exactly the ids the key table gives the file's keyed notes |
| ImportNotes.OrphanIds | ankiops/import_notes.py:236-241 | the orphans are exactly the deck's non-zero ids outside the excluded ones, each once |
| ImportNotes.OrphanDeletes | ankiops/import_notes.py:241-250 | one delete per orphan, described by its key when the table has one, else by its id |
| ImportNotes.Links | ankiops/import_notes.py:260-262 | `zip(created_ids, creates)`: as many links as the shorter list, each a create's key with its new id |
| ImportNotes.LinkAllSnoc | ankiops/import_notes.py:260-262 | linking extends one `set_note` at a time |
| ImportNotes.LinkAllHolds | ankiops/import_notes.py:260-262 | after linking, each link not overridden later holds, and each old entry no link touches survives |
| ImportNotes.Linked | ankiops/import_notes.py:263 | each create gets its new id when one was returned, the rest stay as they were |
| ImportNotes.Assignments | ankiops/import_notes.py:264 | one key assignment per zipped create: the note and its key |
| ImportNotes.StoreLinks | ankiops/import_notes.py:260-262 | the `set_note` calls store exactly the links, changing only the note table |
| ImportNotes.LinkCreated | ankiops/import_notes.py:259-264 | the linking loop stores the links and gives each create its id |
| ImportNotes.ClassifyFile | ankiops/import_notes.py:135-226 | the classification leaves a 1:1 key table |
| ImportNotes.SyncFile | ankiops/import_notes.py:107-277 | `_sync_file`: the deck name comes from the stem, a deck is created exactly when no id is known, the changes are creates (linked when applied), updates, orphan deletes, skips and moves in that order, the errors are the mismatches plus Anki's, the key table ends 1:1 and the deck table and deck ids are refreshed only for a created deck |
| ImportNotes.DuplicateMessagesEmpty | ankiops/import_notes.py:297-306 | there is no duplicate message exactly when no key occurs twice |
| ImportNotes.CheckKeysMeans | ankiops/import_notes.py:293-307 | the scan succeeds exactly when no note key occurs twice in the collection, and then yields exactly the keys; otherwise the abort message lists the duplicates |
| ImportNotes.Elems | ankiops/import_notes.py:304 | the set of a list's elements |
| ImportNotes.ScanFile | ankiops/import_notes.py:298-304 | the inner loop appends the file's keys and keeps the seen set and the duplicate messages in step with them |
| ImportNotes.FileKeysNext | ankiops/import_notes.py:298-304 | a file's keys grow by a keyed note's key |
| ImportNotes.KeySnoc | ankiops/import_notes.py:300-304 | adding a key adds it to the seen set and a message exactly when it was already seen |
| ImportNotes.ScanKeys | ankiops/import_notes.py:293-307 | the scan loop computes the key check |
| ImportNotes.PrefixedMeans | ankiops/import_notes.py:44-48 | a stripped line counts as the field's line exactly when it is some prefix followed by the value, and that prefix ends in `:` once trailing space is removed |
| ImportNotes.FirstOccurrenceMisreads | ankiops/import_notes.py:45-48 | as written, `"Q: 1 + 1"` is taken as the line of value `"1"`, which the intended test refuses |
| ImportNotes.PickLineFirst | ankiops/import_notes.py:43-49 | the picked line is the first stripped line that passes the test, or none exactly when no line passes |
| ImportNotes.StripsOfExample | ankiops/import_notes.py:44 | the example lines are already stripped |
| ImportNotes.ShortLinePrefixed | ankiops/import_notes.py:44-48 | `"Q: 1"` is the line of value `"1"` under the intended test |
| ImportNotes.FirstLineAsWrittenPicksOtherNote | ankiops/import_notes.py:43-49 | in a file with `"Q: 1 + 1"` above `"Q: 1"`, the code as written picks the other note's line for value `"1"`; the intended test picks `"Q: 1"` |
| ImportNotes.BuildFirstMarkdownLine | ankiops/import_notes.py:31-51 | the loop computes the first markdown line under the intended test: empty for an empty value, else the first prefixed line, else the value |
| ImportNotes.KeyCommentAbove | ankiops/import_notes.py:82-84 | inserting a key comment puts it and a newline right before the first occurrence of the line |
| ImportNotes.AssignOneReplaces | ankiops/import_notes.py:75-77 | a keyed note's old key comment is replaced in place, first occurrence only |
| ImportNotes.Unique | ankiops/import_notes.py:63-71 | the duplicate check passes exactly when the first lines are distinct |
| ImportNotes.FlushWrite | ankiops/import_notes.py:55-86 | one file's flush: nothing without assignments, an error for duplicate first lines, else the content with every key assigned |
| ImportNotes.FlushOnlyAssigned | ankiops/import_notes.py:55-57 | only files with key assignments are written |
| ImportNotes.FlushOutcomeStep | ankiops/import_notes.py:55-86 | each file is skipped, aborts the flush, or is written before the rest |
| ImportNotes.FlushWrites | ankiops/import_notes.py:54-86 | `_flush_writes` processes each file in turn and stops at the first error |
| ImportNotes.FlushWriteAs | ankiops/import_notes.py:55-86 | one file's flush, seen through any function equal to the flush specification |
| ImportNotes.FlushEach | ankiops/import_notes.py:55-86 | the loop of `_flush_writes` computes the flush outcome |
| MarkdownToAnki.ResolveDeck | ankiops/markdown_to_anki.py:238-252 | a file's truthy deck id known to Anki names the deck; otherwise the deck is named from the stem (`__` becomes `::`), created exactly when Anki lacks it, and its id is written back exactly when Anki has it and the file has no id |
| MarkdownToAnki.ResolvedDeckExists | ankiops/markdown_to_anki.py:238-252 | the resolved deck exists in Anki unless it is to be created, a deck is never both created and given an id to write, and an id written is Anki's id for the name |
| MarkdownToAnki.MoveCards | ankiops/markdown_to_anki.py:295-299 | the cards to move are exactly the note's cards that Anki knows and that sit in another deck |
| MarkdownToAnki.NoteErrors | ankiops/markdown_to_anki.py:264-266 | one error line per validation message |
| MarkdownToAnki.ClassifyNote | ankiops/markdown_to_anki.py:263-345 | each case of the classification: invalid notes and failed conversions give only errors; new notes and stale ids are created; with `only_add_new` known ids are skipped; otherwise any moves come first, then a type-mismatch error, a skip when the fields match, or an update |
| MarkdownToAnki.ClassifyNoteShape | ankiops/markdown_to_anki.py:263-345 | only moves precede the note's last change; updates and moves concern notes Anki has; updates and non-`only_add_new` skips have the right note type; an erroring note settles nothing |
| MarkdownToAnki.ClassifyNotes | ankiops/markdown_to_anki.py:263-345 | the loop over a file's notes computes the classification |
| MarkdownToAnki.ClassifyAllUpdatesKnown | ankiops/markdown_to_anki.py:263-345 | every update or move over a whole file targets a note Anki has |
| MarkdownToAnki.OrphanDeletes | ankiops/markdown_to_anki.py:347-355 | the orphans are exactly the deck's Anki notes in neither the file nor any other file, each once, one delete per orphan |
| MarkdownToAnki.ActionUpdates | ankiops/markdown_to_anki.py:167-180 | only updates with a truthy id and non-empty HTML send an action |
| MarkdownToAnki.ActionCreates | ankiops/markdown_to_anki.py:197-217 | only creates with a note and non-empty HTML send an action |
| MarkdownToAnki.UpdateActions | ankiops/markdown_to_anki.py:172-180 | one `updateNoteFields` per acting update, with its id and fields |
| MarkdownToAnki.AddActions | ankiops/markdown_to_anki.py:202-217 | one `addNote` per acting create, in the file's deck with the note's type and fields |
| MarkdownToAnki.Distinct | ankiops/markdown_to_anki.py:156-157 | the deduplicated cards are the same set without repeats, empty exactly when the input is |
| MarkdownToAnki.CollectMovedCards | ankiops/markdown_to_anki.py:148-153 | the loop gathers the cards of every move, in order |
| MarkdownToAnki.CollectUpdates | ankiops/markdown_to_anki.py:167-180 | the loop gathers the acting updates |
| MarkdownToAnki.CollectDeleteIds | ankiops/markdown_to_anki.py:183-189 | the loop gathers the ids of the deletes |
| MarkdownToAnki.CollectCreates | ankiops/markdown_to_anki.py:197-217 | the loop gathers the acting creates |
| MarkdownToAnki.BuildAnkiActions | ankiops/markdown_to_anki.py:127-219 | the actions are createDeck, changeDeck, updates, deleteNotes and addNotes in that order, one tag per action, the updates and creates returned are the acting ones, and the cards to move are the moved cards without repeats |
| MarkdownToAnki.PlanOrdered | ankiops/markdown_to_anki.py:142-217 | the actions are in the order Anki must run them (createDeck first) |
| MarkdownToAnki.PartsOrdered | ankiops/markdown_to_anki.py:142-217 | the five segments concatenate in rank order |
| MarkdownToAnki.CountTagAppend | ankiops/markdown_to_anki.py:375 | tag counts add over concatenation |
| MarkdownToAnki.PlanCount | ankiops/markdown_to_anki.py:391-413 | the plan has as many update (create) tags as acting updates (creates) |
| MarkdownToAnki.PlanCounts | ankiops/markdown_to_anki.py:391-413 | both counts at once, so routing answers never indexes past the update or create lists |
| MarkdownToAnki.CountTagPrefix | ankiops/markdown_to_anki.py:391-413 | counting a tag grows by one at each occurrence and never exceeds the total |
| MarkdownToAnki.RouteAnswers | ankiops/markdown_to_anki.py:373-413 | routing the zipped answers gives exactly the error texts of `RouteErrors` ("Failed to move cards: …", "Note <id> (<repr>): …", "Failed to delete orphaned notes: …", "Note new (<repr>): …"), one per failing answer. It links each successful create to its note and new id. The deck id to write is the answer of the last `create_deck` tag, and there is none exactly when no tag is `create_deck` |
| MarkdownToAnki.RouteOne | ankiops/markdown_to_anki.py:376-408 | one answer's branch: a card move, update or orphan deletion fails on anything but `None`, a creation fails unless it answers a non-zero integer, each failure adds its one error text, and a successful creation links its note to the new id |
| MarkdownToAnki.RouteStep | ankiops/markdown_to_anki.py:373-408 | one more answer adds its own error (routed to the next update or create by counting tags), its failure and its id link |
| MarkdownToAnki.LastDeckAnswerMeans | ankiops/markdown_to_anki.py:376-380 | the deck id answer is that of the last `create_deck` tag among the zipped answers, and none exactly when no tag is `create_deck` |
| MarkdownToAnki.BatchFailed | ankiops/markdown_to_anki.py:415-426 | a failed batch attributes one error to every update and create, plus one for moves and one for orphans when there are any |
| MarkdownToAnki.SortedIds | ankiops/markdown_to_anki.py:524 | the duplicate ids sorted ascending |
| MarkdownToAnki.ScanIds | ankiops/markdown_to_anki.py:508-519 | the scan keeps the seen ids and the duplicated ids in step with the ids met |
| MarkdownToAnki.CheckDuplicateIds | ankiops/markdown_to_anki.py:487-529 | the check passes exactly when no deck id and no note id repeats, yielding all note and deck ids; otherwise the message lists the repeated ids sorted |
| MarkdownToAnki.AssignOneInserts | ankiops/markdown_to_anki.py:114-117 | a new note's id comment is inserted right before the first occurrence of its first line |
| MarkdownToAnki.FlushedContent | ankiops/markdown_to_anki.py:94-117 | a file is touched exactly when it has a deck id or assignments. It is refused exactly when it has assignments and two of the assigned notes share a first line (`validate_no_duplicate_first_lines`). A deck id alone puts the deck id line in front of the rest |
| MarkdownToAnki.FirstLinesUnique | ankiops/markdown_to_anki.py:107 | the duplicate check passes exactly when no two assigned notes share a first line |
| MarkdownToAnki.FlushWrite | ankiops/markdown_to_anki.py:94-119 | one file's flush computes its new content, or the refusal when two assigned notes share a first line |
| ExportNotes.ConvertedMeans | ankiops/export_notes.py:36-43 | a field is kept exactly when the note type declares it, it is not the key field, Anki has it, and its Markdown conversion is non-empty, which is then its value |
| ExportNotes.FromHtml | ankiops/export_notes.py:30-50 | the domain note keeps Anki's note type and carries a key exactly when Anki's stripped key field is non-empty, that stripped value |
| ExportNotes.QueueMapping | ankiops/export_notes.py:94-98 | the cache maps the id to the key afterwards; a mapping is queued exactly when the id did not already map to that key |
| ExportNotes.QueueFingerprint | ankiops/export_notes.py:100-104 | the cache holds the fingerprint afterwards; it is queued exactly when the key did not already hold that pair |
| ExportNotes.ByKeyCarries | ankiops/export_notes.py:298-302 | each local note indexed by key carries that key |
| ExportNotes.ByContentUnkeyed | ankiops/export_notes.py:303-307 | only keyless local notes are indexed by content |
| ExportNotes.ByKeyListed | ankiops/export_notes.py:298-302 | a key is indexed exactly when some local note carries it |
| ExportNotes.ComparedMeans | ankiops/export_notes.py:159-202 | comparison with the local file resolves the note under its key: created exactly when no local note has the key, skipped exactly when the local note's fields are the same (keeping the local note), else updated; only fingerprints are queued |
| ExportNotes.EmbeddedKeyWins | ankiops/export_notes.py:107-117 | a non-empty key embedded in Anki overrides the stored mapping, is queued only when it differs from the stored key, and is the key the note resolves under |
| ExportNotes.UnchangedSkipped | ankiops/export_notes.py:119-137 | when the cached fingerprint pair matches the local note and Anki, the note is skipped with the local note and nothing but the override is queued |
| ExportNotes.UnknownTypeOmitted | ankiops/export_notes.py:139-144 | a changed note of an unconfigured note type is left out with the "Unknown note type" error |
| ExportNotes.KnownTypeClassified | ankiops/export_notes.py:146-202 | a changed note of a configured type is resolved under a key that the id then maps to: created, updated or skipped as the local file says, a known key kept, queues only growing |
| ExportNotes.KeylessTakesNewKey | ankiops/export_notes.py:148-157 | a note with no stored or embedded key whose first line matches no keyed local note takes a freshly generated key |
| ExportNotes.AllStepsOk | ankiops/export_notes.py:106-202 | every note's step either resolves the note or reports an error, keeps its id and only appends to the queues |
| ExportNotes.ResolveAccounts | ankiops/export_notes.py:106-204 | every Anki note is resolved or reported, resolved notes come from the input with their own ids, at most one key is generated per note, and the queues only grow |
| ExportNotes.ResolveDeckNotes | ankiops/export_notes.py:78-204 | the loop computes the resolution specification |
| ExportNotes.ResolvedByKeyFrom | ankiops/export_notes.py:221-223 | the by-key index holds resolved notes under their own keys |
| ExportNotes.KeptFrom | ankiops/export_notes.py:227-234 | notes kept in file order are resolved notes |
| ExportNotes.Unconsumed | ankiops/export_notes.py:236-243 | the remaining notes are exactly the resolved notes whose key was not consumed |
| ExportNotes.OrderedShape | ankiops/export_notes.py:207-245 | a first export is a permutation of the resolved notes sorted by note id; otherwise the notes of the existing file come first in file order, then the rest sorted by note id |
| ExportNotes.OrderedSound | ankiops/export_notes.py:207-245 | the ordering only contains resolved notes |
| ExportNotes.OrderedCovers | ankiops/export_notes.py:207-245 | with distinct keys, every resolved note is in the ordering |
| ExportNotes.OrderResolvedNotes | ankiops/export_notes.py:207-245 | the method computes the notes of the ordering |
| ExportNotes.KeptNotes | ankiops/export_notes.py:224-234 | the loop over existing notes computes the kept notes and the consumed keys |
| ExportNotes.FieldLinesJoin | ankiops/export_notes.py:266-269 | the prefixed lines of a field join back to `prefix value` |
| ExportNotes.KeyCommentFirst | ankiops/export_notes.py:256-257 | a keyed note's text starts with its key comment |
| ExportNotes.NoteTextsMeans | ankiops/export_notes.py:254-271 | rendering fails exactly when some note's type is unconfigured (`KeyError` on the first one); otherwise one text per note |
| ExportNotes.RenderNote | ankiops/export_notes.py:255-271 | one note's parts: the key comment, then each prefixed non-empty field in the note type's order |
| ExportNotes.RenderFields | ankiops/export_notes.py:260-269 | the field loop computes the field parts |
| ExportNotes.PrefixedLines | ankiops/export_notes.py:266-269 | a field's lines: the prefix on the first, the rest as they are |
| ExportNotes.RenderNotesToMarkdown | ankiops/export_notes.py:248-273 | the notes joined by the note separator with a final newline, or the `KeyError` |
| ExportNotes.Removed | ankiops/export_notes.py:338-342 | the removed notes are exactly the keyed old notes whose key is not in the final notes |
| ExportNotes.DeletedIffMissing | ankiops/export_notes.py:338-345 | a keyed old note is removed exactly when its key is missing from the final notes, and then a delete is reported |
| ExportNotes.RemoveDeleted | ankiops/export_notes.py:341-344 | the key store loses exactly the removed keys, with their fingerprints |
| ExportNotes.SyncDeck | ankiops/export_notes.py:276-357 | `_sync_deck` computes the deck specification and changes the key store only by removing the deleted keys (nothing on error) |
| ExportNotes.StoreQueued | ankiops/export_notes.py:449-452 | queued mappings and fingerprints are written in bulk only when there are any. The mappings go through the corrected bulk write (`set_note` on each in turn, Db.PutAll), not `set_notes_bulk` as written (see Findings and Left out) |
| ExportNotes.OrphanFiles | ankiops/export_notes.py:459-465 | the orphan files are exactly the listed files still present and not written by any deck |
| ExportNotes.OrphanFilesSnoc | ankiops/export_notes.py:459-465 | the orphans grow file by file |
| ExportNotes.FileDeletesSnoc | ankiops/export_notes.py:466-468 | one delete change per orphan file, in order |
| ExportNotes.FileDeleteInjective | ankiops/export_notes.py:466-468 | different files give different delete changes |
| ExportNotes.OrphansReported | ankiops/export_notes.py:459-468 | a file is reported deleted exactly when it is listed, still present and not active |
| ExportNotes.RemoveOrphanFiles | ankiops/export_notes.py:455-468 | the loop reports the orphan files and removes their decks from the deck table |
| ExportNotes.ExportedDecks | ankiops/export_notes.py:409-411 | the exported decks are exactly the decks with notes other than `Default` |
| ExportNotes.SyncerNamesResults | ankiops/export_notes.py:289 | each deck's result is named after the deck |
| ExportNotes.ExportedInOrder | ankiops/export_notes.py:407-444 | a successful export has one result per non-Default deck, in deck order |
| ExportNotes.ExportErrorAborts | ankiops/export_notes.py:409-444 | an error in some deck aborts the export with that error |
| ExportNotes.ExportDecks | ankiops/export_notes.py:407-444 | the deck loop computes the export specification and leaves its store behind |
| ExportNotes.NoteIds | ankiops/export_notes.py:372 | one id per Anki note, in order |
| ExportNotes.Listed | ankiops/export_notes.py:376-383 | a list of exactly the candidate keys |
| ExportNotes.LoadCaches | ankiops/export_notes.py:374-383 | the caches loaded are the key and fingerprint tables restricted to the notes fetched |
| ExportNotes.KeysAreInitial | ankiops/export_notes.py:374 | the bulk key lookup yields exactly the initial id-to-key cache |
| ExportNotes.ExportCollection | ankiops/export_notes.py:360-470 | inside one transaction the export computes the collection specification, whose mappings are stored with the corrected bulk write (Db.PutAll); on error an outermost transaction leaves the store as it was |
| AnkiToMarkdown.EntryKeys | ankiops/anki_to_markdown.py:111 | the keys of the existing blocks |
| AnkiToMarkdown.ExistingChange | ankiops/anki_to_markdown.py:84-108 | an existing block missing from Anki is deleted; one still in Anki is skipped when its content is unchanged and updated otherwise, carrying Anki's note id and content |
| AnkiToMarkdown.ReconcileBlocks | ankiops/anki_to_markdown.py:65-129 | the changes keep the existing blocks in file order, each classified as above, followed by exactly the new Anki blocks as creates, each once, sorted by note id; a first export creates every block sorted by note id |
| AnkiToMarkdown.SortedEntries | ankiops/anki_to_markdown.py:111-123 | the new blocks sorted by note id, each exactly once |
| AnkiToMarkdown.CreatesFromEntries | ankiops/anki_to_markdown.py:116-119 | creates made from the sorted entries form the sorted create tail |
| AnkiToMarkdown.AnkiBlocksKept | ankiops/anki_to_markdown.py:65-129 | every Anki block is kept (created, updated or skipped) |
| AnkiToMarkdown.KeptOnce | ankiops/anki_to_markdown.py:65-129 | with distinct existing keys, no block is kept twice |
| AnkiToMarkdown.DeletionsStale | ankiops/anki_to_markdown.py:106-108 | only existing blocks that Anki no longer has are deleted |
| AnkiToMarkdown.ReconcilePartition | ankiops/anki_to_markdown.py:65-129 | the reconciliation keeps every Anki block exactly once and deletes only stale file blocks |
| AnkiToMarkdown.KeptContents | ankiops/anki_to_markdown.py:171-180 | the reconstructed blocks are exactly the non-empty contents of the kept changes |
| AnkiToMarkdown.RenderDeck | ankiops/anki_to_markdown.py:164-182 | the new content starts with the deck key line |
| AnkiToMarkdown.KeptContentIsAnki | ankiops/anki_to_markdown.py:84-127 | a kept change carries its Anki block's content |
| AnkiToMarkdown.KeptContentsAreAnkiBlocks | ankiops/anki_to_markdown.py:168-182 | the reconstructed file holds exactly the non-empty contents of Anki's blocks |
| AnkiToMarkdown.KeyOfDeck | ankiops/anki_to_markdown.py:154 | a deck id in the deck table has a key mapping to it |
| AnkiToMarkdown.ResolveDeckKey | ankiops/anki_to_markdown.py:153-162 | a mapped deck key is kept and the table unchanged; otherwise the file's key, else a generated key, is used and recorded for the deck; note keys are untouched |
| AnkiToMarkdown.SyncDeck | ankiops/anki_to_markdown.py:132-189 | an empty deck gives no changes, no content and no key change; otherwise the changes reconcile Anki's blocks with the file's, and the content is the deck key line followed by the kept blocks |
| AnkiToMarkdown.DetectMoves | ankiops/anki_to_markdown.py:382-406 | a key counts as moved exactly when some deck created it and some deck deleted it |
| CollectionSerializer.DeckNameRoundTrip | ankiops/collection_serializer.py:57 | a deck name without underscores survives the file-name mapping (`::` to `__` and back) |
| CollectionSerializer.SerializedCounts | ankiops/collection_serializer.py:46-71 | one error per file that fails to parse, and the serialized decks hold exactly the notes of the files that parsed |
| CollectionSerializer.SerializedDecks | ankiops/collection_serializer.py:55-68 | every serialized deck is non-empty and comes from a parsed file: its name from the stem, one record per note with key, type and fields |
| CollectionSerializer.SerializeCollection | ankiops/collection_serializer.py:15-86 | without the key store the collection is refused with "Not an AnkiOps collection"; otherwise the loop computes the serialization |
| CollectionSerializer.Lookup | ankiops/collection_serializer.py:153 | `fields.get(name)`: present exactly when some field has the name, and then one of its values |
| CollectionSerializer.ConfigNamed | ankiops/collection_serializer.py:150 | the configuration of that name, or none when no configuration has it |
| CollectionSerializer.TrimmedMeans | ankiops/collection_serializer.py:161-163 | trimming removes exactly the trailing run of `""`/`---` lines: the result is a prefix, ends in a non-separator line, and every removed line is a separator |
| CollectionSerializer.BlockTexts | ankiops/collection_serializer.py:165 | each note block joined by newlines |
| CollectionSerializer.BlockLinesKept | ankiops/collection_serializer.py:147-155 | no line of a note block is a separator line |
| CollectionSerializer.FieldLinesSpaced | ankiops/collection_serializer.py:155 | every field line holds the space after its prefix |
| CollectionSerializer.DeckLinesInterleaved | ankiops/collection_serializer.py:133-159 | the lines built are the note blocks, each followed by a blank, `---`, blank separator |
| CollectionSerializer.InterleavedSnoc | ankiops/collection_serializer.py:133-159 | adding a block adds the separator and the block |
| CollectionSerializer.ContentSeparated | ankiops/collection_serializer.py:131-165 | a deck's file is its non-empty note blocks joined by `\n\n---\n\n`, with no trailing separator |
| CollectionSerializer.BlocksKept | ankiops/collection_serializer.py:147-155 | no note block contains a separator line, so trimming stops at the last block |
| CollectionSerializer.InterleavedEnds | ankiops/collection_serializer.py:161-163 | interleaved non-empty blocks end in a non-separator line |
| CollectionSerializer.TrimSeparator | ankiops/collection_serializer.py:161-163 | trimming removes exactly one trailing separator after such lines |
| CollectionSerializer.InterleavedJoin | ankiops/collection_serializer.py:165 | joining interleaved blocks equals joining the block texts with `\n\n---\n\n` |
| CollectionSerializer.DeserializedCounts | ankiops/collection_serializer.py:124-176 | every deck and every note of the input is counted, written or not |
| CollectionSerializer.WritesSound | ankiops/collection_serializer.py:166-167 | a file is written only when overwriting or not already there, with the name and content of some deck |
| CollectionSerializer.WritesComplete | ankiops/collection_serializer.py:166-167 | every deck whose file may be written is written |
| CollectionSerializer.AppendNote | ankiops/collection_serializer.py:133-159 | one note adds its block and the separator, or nothing when its type cannot be inferred |
| CollectionSerializer.TrimTrailing | ankiops/collection_serializer.py:161-163 | the `while ... pop()` loop computes the trimmed lines |
| CollectionSerializer.DeckText | ankiops/collection_serializer.py:131-165 | the loop computes the deck's file content |
| CollectionSerializer.DeserializeCollection | ankiops/collection_serializer.py:89-180 | the deck loop computes the deserialization specification |
| SyncMedia.NormalizeMediaPath | ankiops/sync_media.py:35-47 | normalising never lengthens a reference |
| SyncMedia.NormalizeWrittenReference | ankiops/sync_media.py:35-47 | a reference written as `<media/name>` normalises back to the bare file name |
| SyncMedia.NormalizePlain | ankiops/sync_media.py:35-47 | a bare name without brackets or `media/` prefix is left unchanged |
| SyncMedia.SuffixStart | ankiops/sync_media.py:86-87 | the suffix starts at the last dot, which is neither the first nor the last character (as `Path.suffix`) |
| SyncMedia.ExistingHash | ankiops/sync_media.py:90-92 | a recognised hash is the 8 lower-case hex digits just before the suffix, preceded by `_` |
| SyncMedia.HashedFilenameForm | ankiops/sync_media.py:84-98 | the hashed name is always the stem without any old hash, `_`, the digest and the suffix |
| SyncMedia.HashedIdempotent | ankiops/sync_media.py:89-94 | hashing a hashed name with the same digest returns it unchanged, and the result carries exactly that digest, stem and suffix |
| SyncMedia.Assign | ankiops/sync_media.py:213-216 | an assignment into the rename dict binds the key to the value and leaves the other keys alone |
| SyncMedia.HashStepKeepsDigests | ankiops/sync_media.py:198-216 | one file of the hashing pass neither loses nor invents content: the folder holds the same digests |
| SyncMedia.HashRunKeepsDigests | ankiops/sync_media.py:187-238 | the whole hashing pass keeps the set of contents of the media folder |
| SyncMedia.UnseenAfterStep | ankiops/sync_media.py:187-216 | files the pass has not reached yet are still present with their content |
| SyncMedia.RenamesAfterStep | ankiops/sync_media.py:202-216 | every rename key comes from a file already seen that was hashable, and maps to `media/` plus its hashed name |
| SyncMedia.HashStepInvariant | ankiops/sync_media.py:187-216 | one step preserves both halves of the hashing invariant |
| SyncMedia.HashRunRenames | ankiops/sync_media.py:161-238 | after the pass over a listing of distinct names, every entry of the returned rename map records the hashed name of a hashable listed file |
| SyncMedia.LastSegment | ankiops/sync_media.py:284 | `split("/")[-1]` contains no slash |
| SyncMedia.InverseNamesCovers | ankiops/sync_media.py:284 | every renamed target has an entry in the inverse map |
| SyncMedia.InverseNamesBack | ankiops/sync_media.py:284 | every entry of the inverse map leads from some target back to the last segment of a key that was renamed to it |
| SyncMedia.HashStepListed | ankiops/sync_media.py:213-216 | the rename dict's insertion-ordered keys stay in step with its mapping after one file |
| SyncMedia.HashRunKeysListed | ankiops/sync_media.py:184-238 | the same holds for the rename dict the whole pass returns |
| SyncMedia.ToAnkiRunLocal | ankiops/sync_media.py:286-303 | after pushing to Anki the local folder has lost exactly the listed, non-hidden files that are neither referenced nor `_`-prefixed, and kept every other file's content |
| SyncMedia.ToAnkiStepAnki | ankiops/sync_media.py:291-296 | one file is copied to Anki exactly when it is local, not hidden, referenced or `_`-prefixed, and not yet in Anki |
| SyncMedia.ToAnkiRunAnki | ankiops/sync_media.py:286-303 | Anki's folder gains exactly the copied files with their local content and keeps its existing files unchanged |
| SyncMedia.FromAnkiRunChanges | ankiops/sync_media.py:319-335 | one change per referenced name, in order: SYNC exactly when Anki has the file and the local folder does not, SKIP otherwise |
| SyncMedia.FromAnkiStepChange | ankiops/sync_media.py:323-335 | one name records SYNC when it is copied and SKIP when missing in Anki or already local |
| SyncMedia.FromAnkiRunFolders | ankiops/sync_media.py:308-337 | pulling from Anki leaves Anki unchanged, adds exactly the referenced names Anki has, with Anki's content, and never overwrites a local file |
| SyncMedia.MediaFolders.ApplyHashing | ankiops/sync_media.py:161-238 | the method's new local folder, rename map and changes are those of the hashing pass; Anki's folder is untouched |
| SyncMedia.MediaFolders.SyncToAnki | ankiops/sync_media.py:241-305 | an aliased media folder is an error that changes nothing; a missing media folder gives no changes; otherwise hashing, then copying and pruning, with the hash changes followed by the transfer changes |
| SyncMedia.MediaFolders.SyncFromAnki | ankiops/sync_media.py:308-337 | the folders and changes after the method are those of the pull specification |
| NoteTypeSync.ConfigNames | ankiops/sync_note_types.py:48 | the names of the note types, one per config, in order |
| NoteTypeSync.SignatureOrderFree | ankiops/sync_note_types.py:47-48 | the names signature depends only on the multiset of names, not on the order of the configs |
| NoteTypeSync.ToCreate | ankiops/sync_note_types.py:67 | the types to create are exactly the configs whose name Anki does not have; none exactly when every name exists |
| NoteTypeSync.ToUpdate | ankiops/sync_note_types.py:68 | the types to update are exactly the configs whose name Anki has |
| NoteTypeSync.PartitionExact | ankiops/sync_note_types.py:66-68 | creations and updates together are the configs, each exactly once |
| NoteTypeSync.SyncNoteTypes | ankiops/sync_note_types.py:51-106 | no configs gives no summary and no work; a store holding the same hash and signature with nothing to create gives "N up to date (cached)" and no work; otherwise the missing types are created, the rest updated, the state saved exactly when a store is present, and the summary joins the created and synced counts |
| NoteTypeSync.SecondRunCached | ankiops/sync_note_types.py:73-81 | a second run with a store, after the first one's creations and saved state, with unchanged configs, is answered from the cache |
| LlmModels.DefaultScopeMatchesAll | ankiops/llm/models.py:22-29 | the default scope (`include: ["*"]`, no excludes) takes every deck |
| LlmModels.ExcludeWins | ankiops/llm/models.py:26-29 | a deck matched by an exclude pattern is out of scope whatever the includes say |
| LlmModels.Merged | ankiops/llm/models.py:47-59 | each option of the merge is the override's when set, else the base's |
| LlmModels.MergedLaws | ankiops/llm/models.py:47-59 | merging with empty options on either side changes nothing, merging is idempotent and associative |
| LlmModels.AccessClosedForm | ankiops/llm/models.py:72-82 | rule order does not matter: hidden by any rule for the note type wins, then read-only by any, else editable; rules for other note types have no effect |
| LlmModels.FieldAccessOf | ankiops/llm/models.py:72-82 | the loop of `field_access` gives the specified access: editable exactly when no matching rule hides it or makes it read-only, hidden exactly when some matching rule hides it |
| LlmModels.TaskRunSummary.constructor | ankiops/llm/models.py:112-121 | a new summary has the given names and all counters at zero |
| LlmModels.SummaryParts | ankiops/llm/models.py:124-128 | `updated` and `unchanged` always, then `skipped` and `errors` only when non-zero, in that order |
| LlmModels.FormatWithDash | ankiops/llm/models.py:129-131 | the line starts `LLM task '<name>': <eligible> notes`, the dash and a space |
| LlmModels.SummaryDashGarbled | ankiops/llm/models.py:129 | every line the source prints carries `â€”` after the note count |
| LlmModels.SummaryDashCorrected | ankiops/llm/models.py:129 | the corrected line carries an em dash there and differs from the printed one |
| LlmConfigLoader.ReadMapping | ankiops/llm/config_loader.py:36-42 | a document is accepted exactly when it is a mapping or empty (falsy); a mapping yields its members; anything else is refused with the "config must be a YAML mapping" message |
| LlmConfigLoader.RequireStr | ankiops/llm/config_loader.py:44-49 | succeeds exactly when the key holds a string that is not blank, and then yields it stripped; otherwise the "must be a non-empty string" message |
| LlmConfigLoader.OptionalStr | ankiops/llm/config_loader.py:51-58 | a missing or null key gives `None`; a non-blank string gives its stripped, non-empty value; anything else is an error |
| LlmConfigLoader.RequireVersion | ankiops/llm/config_loader.py:60-65 | accepted exactly when `version` equals 1 (which, as Python compares, includes `True`), and the result is then 1 |
| LlmConfigLoader.RequireNameStem | ankiops/llm/config_loader.py:67-72 | accepted exactly when the configured name equals the file's stem |
| LlmConfigLoader.UnknownKeys | ankiops/llm/config_loader.py:105-107 | the sorted unknown keys are exactly the mapping's keys outside the valid set, and the list is empty exactly when every key is valid |
| LlmConfigLoader.SortedUnknown | ankiops/llm/config_loader.py:105-107 | sorting the unknown names keeps exactly the keys outside the valid set |
| LlmConfigLoader.StrItemsIff | ankiops/llm/config_loader.py:77-83 | the item loop succeeds exactly when every item is a non-blank string, and then yields each item stripped, in order; otherwise the "must contain only strings" message |
| LlmConfigLoader.StrListIff | ankiops/llm/config_loader.py:74-83 | `_parse_str_list` accepts exactly a non-empty list of non-blank strings and yields them stripped, each non-empty |
| LlmConfigLoader.OptionalStrListIff | ankiops/llm/config_loader.py:85-96 | `_parse_optional_str_list` accepts exactly null (giving `[]`) or a list of non-blank strings, keeping the list's length |
| LlmConfigLoader.ParseItems | ankiops/llm/config_loader.py:77-83 | the item loop computes the item-list specification |
| LlmConfigLoader.ParseStrList | ankiops/llm/config_loader.py:74-83 | the loop computes `_parse_str_list`'s specification |
| LlmConfigLoader.ParseOptionalStrList | ankiops/llm/config_loader.py:85-96 | the loop computes `_parse_optional_str_list`'s specification |
| LlmConfigLoader.RequestOptionsIff | ankiops/llm/config_loader.py:98-123 | request options are accepted exactly when null, or a mapping with only `temperature`/`max_output_tokens`, a numeric temperature and a positive integer token limit; null gives the empty options |
| LlmConfigLoader.DeckListsAccepted | ankiops/llm/config_loader.py:137-145 | accepted deck lists always have at least one include; the default `["*"]` include is kept as is |
| LlmConfigLoader.DeckScopeProperties | ankiops/llm/config_loader.py:125-145 | null gives the default scope; a missing `include` gives `["*"]`; an accepted scope has at least one include; any key other than include/exclude is an error |
| LlmConfigLoader.FieldNamesByType | ankiops/llm/config_loader.py:147-154 | the map has an entry exactly for each configured note type's name |
| LlmConfigLoader.TypeNames | ankiops/llm/config_loader.py:180 | the note type names, one per configuration, in order |
| LlmConfigLoader.FirstMissing | ankiops/llm/config_loader.py:218-223 | `None` exactly when every named field is available; otherwise a named field that is not available |
| LlmConfigLoader.RuleCheckedAccepted | ankiops/llm/config_loader.py:198-232 | an accepted rule declares some read-only or hidden field, its patterns match some note type, and each of its fields exists on a matched note type |
| LlmConfigLoader.ExceptionRuleAccepted | ankiops/llm/config_loader.py:184-232 | the same three guarantees for a rule parsed from one `fields.exceptions` entry |
| LlmConfigLoader.RuleOutcomes | ankiops/llm/config_loader.py:184-232 | one outcome per entry, each entry checked under its own `#fields.exceptions[i]` path |
| LlmConfigLoader.FieldExceptionsAccepted | ankiops/llm/config_loader.py:156-234 | every rule in an accepted `fields` section declares some read-only or hidden field |
| LlmConfigLoader.ParseFieldExceptions | ankiops/llm/config_loader.py:156-234 | the entry loop computes the field-exceptions specification, stopping at the first bad entry |
| LlmConfigLoader.Header | ankiops/llm/config_loader.py:238-281 | an accepted header has version 1 and a non-empty name equal to the file's stem |
| LlmConfigLoader.ProviderAccepted | ankiops/llm/config_loader.py:236-275 | an accepted provider has version 1, the stem as its name, a positive timeout, an API key variable whenever it is of type openai, that variable set and non-empty in the environment, and a positive token limit if any |
| LlmConfigLoader.ProviderBodyAccepted | ankiops/llm/config_loader.py:241-275 | the same guarantees for the part after the header, keeping the header's version and name |
| LlmConfigLoader.ProviderLimitsAccepted | ankiops/llm/config_loader.py:254-264 | the timeout and request-default checks change nothing but those two fields, and enforce the timeout, key variable and token-limit guarantees |
| LlmConfigLoader.TaskAccepted | ankiops/llm/config_loader.py:277-308 | an accepted task has version 1, the stem as its name, a non-empty provider and prompt, at least one deck include, only known keys, and only field-exception rules that declare a field |
| LlmConfigLoader.TaskBodyAccepted | ankiops/llm/config_loader.py:282-308 | the same guarantees for the part after the header |
| LlmConfigLoader.TaskRestAccepted | ankiops/llm/config_loader.py:285-298 | the field-exception, request and unknown-key checks change only those two fields and leave only known keys |
| LlmConfigLoader.ProviderOutcomes | ankiops/llm/config_loader.py:329-331 | one parse outcome per provider file, in file order |
| LlmConfigLoader.TaskOutcomes | ankiops/llm/config_loader.py:341-343 | one parse outcome per task file, in file order |
| LlmConfigLoader.LoadLlmConfigSet | ankiops/llm/config_loader.py:310-356 | the two loops compute the configuration-set specification |
| LlmConfigLoader.LoadProviders | ankiops/llm/config_loader.py:328-337 | the providers loop folds the outcomes as the specification does |
| LlmConfigLoader.LoadTasks | ankiops/llm/config_loader.py:339-349 | the tasks loop folds the outcomes against the loaded providers as the specification does |
| LlmConfigLoader.ProvidersAccounted | ankiops/llm/config_loader.py:328-337 | every loaded provider is stored under its own name and came from some file; every file that parsed has its name loaded; every file that failed has an error entry |
| LlmConfigLoader.FirstProviderWins | ankiops/llm/config_loader.py:331-335 | the first file to parse to a given name is the provider loaded under that name |
| LlmConfigLoader.DuplicateProviderRejected | ankiops/llm/config_loader.py:332-337 | a later file with an already loaded provider name is recorded as an error |
| LlmConfigLoader.TaskStepGrows | ankiops/llm/config_loader.py:341-349 | one task file's step keeps every task and error already there; a new task came from that file, is stored under its name and references a loaded provider |
| LlmConfigLoader.TasksAccounted | ankiops/llm/config_loader.py:339-349 | every loaded task is stored under its name, references a loaded provider and came from some file; every task file is either loaded by name or has an error entry |
| LlmConfigLoader.LoadAccounted | ankiops/llm/config_loader.py:310-356 | in the loaded set every task's provider is loaded, every provider file either parses or has an error, and every task file either is loaded by name or has an error |
| LlmRunner.PayloadFieldsIff | ankiops/llm/runner.py:64-81 | a field lands among the editable (read-only) fields exactly when the note offers it as a non-empty string of its note type (not the key field) and the task's rules give it edit (read-only) access; each keeps the value last offered |
| LlmRunner.PayloadFieldsDisjoint | ankiops/llm/runner.py:64-81 | no field is both editable and read-only, the key field is never included, and hidden or foreign fields never appear |
| LlmRunner.PayloadSpecIff | ankiops/llm/runner.py:48-91 | building raises exactly when note_key, note_type or fields is missing or of the wrong type; a payload (with deck_name passed) carries the note's key and type, at least one editable field and disjoint field sets; no payload means no offered field is editable |
| LlmRunner.BuildNotePayload | ankiops/llm/runner.py:48-91 | the field loop computes the payload specification, with deck_name passed |
| LlmRunner.ConstructPayload | ankiops/llm/runner.py:86-91 | a `NotePayload(...)` call succeeds exactly when every required keyword is given |
| LlmRunner.PayloadAsWrittenRaises | ankiops/llm/runner.py:86-91 | as written (no deck_name keyword) the constructor never yields a payload, and raises `TypeError` for every note the intended code would send |
| LlmRunner.EditsRejectedIff | ankiops/llm/runner.py:110-118 | the edits are refused exactly when some edit names a field that is not editable |
| LlmRunner.EditsRejectedAt | ankiops/llm/runner.py:110-118 | the first edit of a non-editable field decides the message: read-only or hidden/unknown |
| LlmRunner.EditWritten | ankiops/llm/runner.py:119-121 | after accepted edits each edited field holds its new value |
| LlmRunner.UneditedKept | ankiops/llm/runner.py:108-121 | accepted edits leave every field no edit names as it was |
| LlmRunner.EditsWritten | ankiops/llm/runner.py:108-121 | both of the above at once: edited fields hold the new values, all others are unchanged |
| LlmRunner.EditsChanged | ankiops/llm/runner.py:109-124 | `changed` is set exactly when some edit differs from the current value; with no change the fields are untouched |
| LlmRunner.StringFields | ankiops/llm/runner.py:126-130 | the note handed to validation has one field per serialized field, each its string value |
| LlmRunner.PatchApplied | ankiops/llm/runner.py:94-136 | an applied patch matched the note key, edited only editable fields, changed some field, writes exactly the edits into `fields`, keeps every other key of the note, and the new note validates against its note type |
| LlmRunner.PatchUnchangedIff | ankiops/llm/runner.py:119-124 | with a matching key and editable edits, the patch reports no change exactly when every edit equals the current value |
| LlmRunner.PatchRejected | ankiops/llm/runner.py:110-118 | the first forbidden edit becomes the note's error |
| LlmRunner.PatchEditsRefused | ankiops/llm/runner.py:110-118 | refused edits make the refusal the note's error |
| LlmRunner.ApplyNotePatch | ankiops/llm/runner.py:94-136 | the method computes the patch specification |
| LlmRunner.WriteEdits | ankiops/llm/runner.py:108-121 | the edit loop computes the edits specification |
| LlmRunner.EditsErrSticks | ankiops/llm/runner.py:110-118 | once a prefix of the edits is refused, the whole patch is refused with the same message |
| LlmRunner.NoteAsWrittenAborts | ankiops/llm/runner.py:236-240 | as written every note that would be sent aborts the run with `TypeError` |
| LlmRunner.ProcessNote | ankiops/llm/runner.py:216-273 | the inner loop's body computes the note's outcome: skipped, updated, unchanged, a note error or an abort |
| LlmRunner.TallyNotesCounts | ankiops/llm/runner.py:216-273 | the note loop completes exactly when no note aborts, and then each counter grows by the number of notes of its kind |
| LlmRunner.TallyDecksCounts | ankiops/llm/runner.py:204-273 | the deck loop completes exactly when no deck aborts; then each counter grows by the notes of its kind, `skipped` also by every note of an out-of-scope deck |
| LlmRunner.CountsBalanced | ankiops/llm/runner.py:245-273 | a run whose counters start balanced ends with eligible = updated + unchanged + errors |
| LlmRunner.EligibleSplits | ankiops/llm/runner.py:245-273 | over all decks, eligible notes split into updated, unchanged and errored |
| LlmRunner.EligibleSplitsNotes | ankiops/llm/runner.py:245-273 | within one deck, eligible notes split into updated, unchanged and errored |
| LlmRunner.NoteResults | ankiops/llm/runner.py:216 | one result per note, in order |
| LlmRunner.NoteResultsAt | ankiops/llm/runner.py:216 | the k-th result is the rule applied to the k-th note |
| LlmRunner.DeckResults | ankiops/llm/runner.py:204 | one result per deck, in order |
| LlmRunner.DeckResultsAt | ankiops/llm/runner.py:204 | the k-th result is the outcome of the k-th deck |
| LlmRunner.NewNotes | ankiops/llm/runner.py:135 | one note after the run per note before it |
| LlmRunner.NewDecks | ankiops/llm/runner.py:204 | one deck after the run per deck before it |
| LlmRunner.TallyNotesFailSticks | ankiops/llm/runner.py:261-262 | once a note aborts, the deck's outcome is that abort whatever follows |
| LlmRunner.TallyDecksFailSticks | ankiops/llm/runner.py:261-262 | once a deck aborts, the run's outcome is that abort whatever follows |
| LlmRunner.DecksNext | ankiops/llm/runner.py:204-273 | the deck tally and the decks after the run extend by one deck's step |
| LlmRunner.NotesNext | ankiops/llm/runner.py:216-273 | the note tally and the notes after the run extend by one note's step |
| LlmRunner.Record | ankiops/llm/runner.py:241-273 | the counter updates for one note's result are the tally's count of it |
| LlmRunner.RunNotes | ankiops/llm/runner.py:216-273 | the note loop fails exactly when the tally fails, with its failure; otherwise the summary holds the tally and the notes are the specified ones |
| LlmRunner.RunDeck | ankiops/llm/runner.py:205-273 | one deck's step: non-dict decks and bad names/notes are passed over, out-of-scope decks add their notes to `skipped`, others run the note loop |
| LlmRunner.RunDecks | ankiops/llm/runner.py:204-273 | the deck loop fails exactly when the tally fails; otherwise the summary holds the tally and the decks are the specified ones |
| LlmRunner.OrElse | ankiops/llm/runner.py:179-184 | a non-empty override wins; a missing or empty one falls back |
| LlmRunner.RunTask | ankiops/llm/runner.py:164-283 | the run (with deck_name passed to the payload) is the run specification: unknown task or provider raise, then the collection run |
| LlmRunner.RunCollection | ankiops/llm/runner.py:197-283 | the body after the summary is created computes the collection run |
| LlmRunner.RunCounts | ankiops/llm/runner.py:164-283 | a run completes exactly when no note aborts; then the counters balance, eligible and skipped count the right notes, the collection is written exactly when not a dry run and some note was updated, and the exit status is 1 exactly when some note errored |
| Ai.DefaultsFor | ankiops/ai.py:103-106 | the remote provider gets the remote defaults, every other provider the local ones |
| Ai.ParsePositiveIntMeans | ankiops/ai.py:109-118 | a stored value that parses to a positive integer is used, anything else (absent, non-numeric, zero, negative) gives the fallback; a positive fallback makes the result positive |
| Ai.ParsePositiveIntRoundTrip | ankiops/ai.py:109-118 | a positive integer written in decimal parses back to itself |
| Ai.LoadSpecMeans | ankiops/ai.py:121-141 | the provider is the stored one when it is `local` or `remote`, else `local`; model, base URL and key variable are the stored non-empty values or the provider's defaults; the timeout is positive; no API key is loaded |
| Ai.LoadAiConfig | ankiops/ai.py:121-141 | reading the settings table yields exactly the configuration the stored keys describe |
| Ai.SaveThenLoad | ankiops/ai.py:144-168 | a successful save returns what a later load of the written table yields, and every non-empty value given is the one loaded |
| Ai.SaveRefusals | ankiops/ai.py:151-166 | an unknown provider is refused before anything is written; a non-positive timeout is refused after provider, model, base URL and key variable have been written, and the stored timeout is left alone |
| Ai.SaveKeepsOtherKeys | ankiops/ai.py:144-168 | keys other than the five AI settings are never changed by a save |
| Ai.SaveAiConfig | ankiops/ai.py:144-168 | the method writes the saved table into the database, returns the save's result and changes nothing else of the database |
| Ai.ResolveSwitched | ankiops/ai.py:171-219 | when the provider is switched, the run fails exactly on a non-positive timeout override, and model, base URL, key variable and timeout fall back to the new provider's defaults unless overridden |
| Ai.ResolveKept | ankiops/ai.py:171-219 | when the provider is kept, the run fails exactly on a non-positive effective timeout, and every setting is the override when given and the stored value otherwise |
| Ai.ResolveProviderAndKey | ankiops/ai.py:171-219 | the runtime provider is valid and is the override when that is valid; the API key is the override or else the value of the key variable (default name when blank) in the environment |
| Ai.ResolveLoadedWithoutOverrides | ankiops/ai.py:121-219 | resolving a loaded configuration with no overrides only fills in the API key from the environment |
| Ai.DecksUnder | ankiops/ai.py:319-341 | exactly the decks named by a target, or below one after `::`, are kept, in their original order |
| Ai.SelectDecksWithSubdecks | ankiops/ai.py:319-336 | no (non-blank) target keeps all decks; otherwise exactly the decks under some target are kept, in order |
| Ai.SubdeckOfSelectedIsSelected | ankiops/ai.py:319-341 | a deck below a selected deck's name is selected too |
| Ai.Prepare | ankiops/ai.py:456-458 | a list entry that is not a dict is the only thing that is skipped without being counted |
| Ai.PrepareReadyIff | ankiops/ai.py:456-487 | a note is sent to the editor exactly when it is a dict with a non-blank string key, a matching note type, and a string field that matches a target pattern |
| Ai.PrepareTask | ankiops/ai.py:461-498 | a prepared note keeps its key (stripped when asked), type and fields; the targets are exactly the string fields matching a target pattern; the fields sent are the send matches followed by the targets not already sent |
| Ai.PayloadOf | ankiops/ai.py:500-507 | the payload carries the note's key and type and exactly the send fields, in order |
| Ai.PayloadTexts | ankiops/ai.py:500-507 | every payload field carries the note's own text for that field |
| Ai.BadFields | ankiops/ai.py:533-537 | a sent field is reported exactly when the answer lacks it or gives a non-string |
| Ai.ReviewAccepts | ankiops/ai.py:516-543 | an answer is accepted exactly when the editor returned a dict with the same note key and a fields dict giving a string for every sent field; the accepted fields are the answer's |
| Ai.ChangesOver | ankiops/ai.py:545-563 | one change per target field whose edited text differs from the original, carrying prompt, deck, note, field and both texts; no change for an unchanged field |
| Ai.WrittenMeans | ankiops/ai.py:551 | after writing the changes, each changed field holds its edited text and every other field is as before |
| Ai.AnsweredOk | ankiops/ai.py:545-563 | an accepted answer with no changes leaves the note alone; otherwise the note gets the written fields |
| Ai.AnsweredWrites | ankiops/ai.py:545-563 | every differing target produces a change, every change is a target with its edited text, and only the note's fields member is replaced, with exactly the changed fields updated |
| Ai.RunNoteMeans | ankiops/ai.py:456-563 | a note counts as processed exactly when it is a dict and as prompted exactly when it is ready; at most one warning, never together with changes; the missing-key warning text; no change leaves the note alone; each change is well formed and names the deck |
| Ai.RunNoteReady | ankiops/ai.py:500-543 | a ready note's outcome is the reviewed answer of the editor to its payload |
| Ai.RunNoteWrites | ankiops/ai.py:509-563 | for a ready note with an accepted answer, the changes and the written note are as Ai.AnsweredWrites states |
| Ai.FoldNotesTallied | ankiops/ai.py:456-563 | the note loop keeps the tallies (changed fields = changes, prompted <= processed, well-formed changes) and touches neither the deck count nor the recorded decks |
| Ai.FoldNotesChangedIff | ankiops/ai.py:454-563 | the note loop adds changes exactly when some note in it changed |
| Ai.VisitedRecords | ankiops/ai.py:566-567 | a visited deck is appended to the changed decks exactly when its notes added a change |
| Ai.DeckRecordedIff | ankiops/ai.py:447-567 | a deck is recorded as changed exactly when it has a notes list and some note in it changed, and earlier records are kept |
| Ai.DeckStepTallied | ankiops/ai.py:447-567 | one deck keeps the run's tallies |
| Ai.FoldDecksTallied | ankiops/ai.py:447-567 | the deck loop keeps the run's tallies, so no more decks are recorded than processed |
| Ai.RunTallied | ankiops/ai.py:432-569 | the run succeeds exactly when the data has a decks list, fails with the decks message otherwise, and a successful result keeps the tallies |
| Ai.RunNoteStep | ankiops/ai.py:456-563 | one pass of the note loop adds that note's outcome to the tallies and returns the edited note |
| Ai.OutcomeStep | ankiops/ai.py:456-563 | the same for a note already classified |
| Ai.AnswerStep | ankiops/ai.py:511-563 | adding a reviewed answer's warning or changes to the tallies |
| Ai.AcceptStep | ankiops/ai.py:545-563 | an accepted answer adds its changes and their count and yields the written note |
| Ai.WriteTargets | ankiops/ai.py:545-563 | the loop over target fields builds exactly the changes, the written fields and the tallies the specification gives |
| Ai.RunDeckNotes | ankiops/ai.py:456-563 | the note loop of a deck computes the specified tallies and edited notes, and reports a change exactly when changes were added |
| Ai.RunDeck | ankiops/ai.py:447-567 | one deck is processed as the deck step specifies |
| Ai.RunDecks | ankiops/ai.py:447-567 | the deck loop computes the specified result for the selected decks |
| Ai.RunInlinePrompt | ankiops/ai.py:432-569 | the whole run returns the specified result or error |
| AiRunner.CollectTasks | ankiops/ai/runner.py:158-233 | the collection loop builds exactly the specified tasks and tallies |
| AiRunner.CollectDeckTasks | ankiops/ai/runner.py:165-231 | one deck's pass of the collection loop, as specified |
| AiRunner.CollectNotesCounts | ankiops/ai/runner.py:172-231 | a deck's notes add one processed note per dict, one task and one prompted note per accepted note, at most one warning per unaccepted note, and write no changes |
| AiRunner.CollectDeckCounts | ankiops/ai/runner.py:165-231 | a deck is counted exactly when it has a notes list; its notes are counted as above |
| AiRunner.CollectCounts | ankiops/ai/runner.py:158-233 | after collection the processed decks are the decks with a notes list, the processed notes the dict notes, the prompted notes the tasks, and warnings plus tasks never exceed processed notes |
| AiRunner.CollectNotesPlaced | ankiops/ai/runner.py:172-231 | the tasks a deck adds extend the list, each names the note it came from and that note's prepared task, in note order |
| AiRunner.CollectPlaced | ankiops/ai/runner.py:158-233 | every task names an accepted note of the selected decks, and the tasks are in deck order, then note order |
| AiRunner.CollectedAreAccepted | ankiops/ai/runner.py:158-233 | there is exactly one task per accepted note, placed and in order |
| AiRunner.CollectTaskCount | ankiops/ai/runner.py:158-233 | the number of tasks is the number of accepted notes |
| AiRunner.PrepareSend | ankiops/ai/runner.py:200-208 | the targets are the string fields matching a target pattern, and the send fields are the send matches followed by the unsent targets |
| AiRunner.SendNoDuplicates | ankiops/ai/runner.py:204-208 | no field is sent twice |
| AiRunner.CollectedGood | ankiops/ai/runner.py:185-202 | every collected task has an accepted note type and only targets matched by a target pattern |
| AiRunner.Dispatch | ankiops/ai/runner.py:242-284 | one outcome per chunk, in chunk order: the editor's error text, the not-keyed message, or the keyed answer |
| AiRunner.VerdictAccepts | ankiops/ai/runner.py:296-339 | an answer is accepted exactly when the chunk succeeded and holds an edited note for the key with the same key and a string for every sent field; a failed chunk, a missing or null entry, an invalid entry and a key mismatch each give their own message |
| AiRunner.TaskStepMeans | ankiops/ai/runner.py:303-318 | a refused answer adds one `deck/key: message` warning and nothing else; an accepted one adds its changes and their count and marks the deck changed exactly when a field changed |
| AiRunner.ErroredChunk | ankiops/ai/runner.py:296-301 | a failed chunk adds one warning per task with the chunk's error and changes nothing else |
| AiRunner.WriteNoteMeans | ankiops/ai/runner.py:357 | writing a note's fields replaces only that note's fields member in that deck; every other deck, note and member is unchanged |
| AiRunner.AcceptWrites | ankiops/ai/runner.py:342-372 | with no change the decks are untouched; otherwise the note holds the written fields, each changed field with its edited text and every other field as before |
| AiRunner.ApplyNoteChanges | ankiops/ai/runner.py:342-372 | the method reports a change exactly when some target's text differs, and returns the accepted state |
| AiRunner.ApplyTask | ankiops/ai/runner.py:303-318 | one task of an answered chunk is applied as specified |
| AiRunner.ApplyChunkResult | ankiops/ai/runner.py:296-318 | one chunk's outcome is applied as specified |
| AiRunner.ApplyChunkResults | ankiops/ai/runner.py:287-320 | the loop over chunk outcomes applies them in order, as specified |
| AiRunner.ApplyChunkApplied | ankiops/ai/runner.py:296-318 | applying a chunk of good tasks keeps the tallies, the counters, the deck list's length and the recorded decks, adding at most one warning per task |
| AiRunner.ApplyChunksApplied | ankiops/ai/runner.py:287-320 | the same for all chunks, with at most one warning per task overall |
| AiRunner.ChunksGood | ankiops/ai/runner.py:236-239 | cutting good tasks into chunks keeps every chunk's tasks good |
| AiRunner.ChangedDecksMeans | ankiops/ai/runner.py:84-86 | the changed decks are exactly the working decks whose index was marked, in their order |
| AiRunner.ChangedDecksLength | ankiops/ai/runner.py:84-86 | no more decks are recorded than were selected |
| AiRunner.AppendChangedDecks | ankiops/ai/runner.py:84-86 | the loop appends exactly the marked decks to the result |
| AiRunner.Run | ankiops/ai/runner.py:50-88 | the run returns the specified result or error |
| AiRunner.OptionsCheckedFirst | ankiops/ai/runner.py:132-143 | a non-positive batch size, then a non-positive in-flight bound, are refused before the data is looked at; otherwise the run fails exactly when the data has no decks list, with the decks message |
| AiRunner.RunCounted | ankiops/ai/runner.py:50-88 | a successful run keeps the tallies, counts the selected decks with a notes list, their dict notes and their accepted notes, has at most one warning per processed note and records no more decks than were selected |
| TaskSelection.Targets | ankiops/ai/task_selection.py:154 | no deck target is blank |
| TaskSelection.StrippedNonBlank | ankiops/ai/task_selection.py:154 | stripping and dropping blanks never lengthens the list |
| TaskSelection.StrippedNonBlankIff | ankiops/ai/task_selection.py:154 | a target is kept exactly when it is non-blank and the strip of some given name |
| TaskSelection.NoBlankTargets | ankiops/ai/task_selection.py:154 | every kept target is non-blank |
| TaskSelection.MatchesDeckScope | ankiops/ai/task_selection.py:167-173 | a target with `*`, `?` or `[` is a case-sensitive glob; any other target matches its own deck and, with subdecks, decks below it after `::` |
| TaskSelection.FilterDecks | ankiops/ai/task_selection.py:157-164 | the kept decks are exactly those some target matches, in their original order |
| TaskSelection.SelectDecks | ankiops/ai/task_selection.py:147-164 | no target or a `*` target keeps every deck; otherwise exactly the matched decks, in order |
| TaskSelection.NormalizeNoteKey | ankiops/ai/task_selection.py:176-180 | a note key is present exactly when it is a non-blank string, and is then stripped |
| TaskSelection.NormalizeNoteType | ankiops/ai/task_selection.py:183-187 | a note type is present exactly when it is a non-blank string, and is then stripped |
| TaskSelection.MergeFrom | ankiops/ai/task_selection.py:190-202 | the merged list starts with the read fields and holds exactly the read and write fields |
| TaskSelection.MergeNoDuplicates | ankiops/ai/task_selection.py:196-201 | merging a duplicate-free read list adds no duplicate |
| TaskSelection.MergeReadAndWriteFields | ankiops/ai/task_selection.py:190-202 | the loop's result is the merge, keeps the read fields as its prefix and includes every write field |
| TaskSelection.StringFields | ankiops/ai/task_selection.py:98-102 | every kept field is a string-valued member of the note's fields |
| TaskSelection.BuildTask | ankiops/ai/task_selection.py:95-134 | a task carries the note's deck, index, key, type and fields; its write fields are non-empty, all matched by the write patterns, and snapshotted; its payload fields are the matched read fields merged with the write fields |
| TaskSelection.NoteOutcome | ankiops/ai/task_selection.py:70-134 | a non-dict note is not counted; a missing key or type gives the matching warning; a matched task has the normalised key and type, a type in scope, and is the task built from the note |
| TaskSelection.NotesTasksBound | ankiops/ai/task_selection.py:70-134 | tasks plus warnings never exceed the dict notes of a deck |
| TaskSelection.DeckTasksBound | ankiops/ai/task_selection.py:63-134 | tasks plus warnings never exceed the notes processed over all decks |
| TaskSelection.IterNoteTasks | ankiops/ai/task_selection.py:55-134 | the tasks are those of the specification in deck and note order; decks with a notes list, dict notes and matched notes are counted; every warning is kept or counted as dropped, within the cap; the change counters are untouched |
| TaskSelection.NotesStep | ankiops/ai/task_selection.py:70-134 | one note extends the tasks, warnings and dict count by its own outcome |
| TaskSelection.TakeNote | ankiops/ai/task_selection.py:71-134 | one note's outcome updates the counters and warnings as the specification says |
| TaskSelection.ScanNotes | ankiops/ai/task_selection.py:70-134 | the inner loop over one deck's notes yields that deck's tasks and updates the counters accordingly |
| TaskExecution.EffectiveBatch | ankiops/ai/task_execution.py:62 | the effective size is at least one, and is the batch size itself when that is positive |
| TaskExecution.IterTaskChunks | ankiops/ai/task_execution.py:53-66 | the chunks concatenate to the tasks in order; each is non-empty and at most the batch size, and all but the last are full |
| TaskExecution.FormatChunkError | ankiops/ai/task_execution.py:204-208 | a blank message gives the class name alone; otherwise `Class: message` with the message stripped |
| TaskExecution.RunChunk | ankiops/ai/task_execution.py:105-132 | a chunk result keeps its chunk and has no error exactly when the editor returned a dict, which it carries; a non-dict reply and an exception become the matching error message |
| TaskExecution.RejectedCount | ankiops/ai/task_execution.py:178-198 | no more tasks are rejected than the chunk holds |
| TaskExecution.ChangedDecksWitness | ankiops/ai/task_execution.py:200-201 | a deck is recorded only when some accepted task of that deck changed a field |
| TaskExecution.ChunkChangesReal | ankiops/ai/task_execution.py:178-201 | every change recorded for a chunk carries the task id and different original and edited text |
| TaskExecution.ChangesOfTagged | ankiops/ai/task_apply.py:39-58 | every change of one note carries the task id and the note's key |
| TaskExecution.ChunkStep | ankiops/ai/task_execution.py:178-201 | one task extends the rejected count, the changes and the changed decks by its own outcome |
| TaskExecution.WarnAll | ankiops/ai/task_execution.py:168-175 | an error chunk adds one warning (kept or dropped) per task, within the cap, and changes no field or counter |
| TaskExecution.ApplyTask | ankiops/ai/task_execution.py:178-201 | a task is patched exactly when its edited note is present and valid; it changes its deck exactly when a field differs; a rejected task costs one warning; the changes grow by the task's changes |
| TaskExecution.ApplyAt | ankiops/ai/task_execution.py:178-201 | one iteration keeps the running account of decks, changes, counts, warnings and patched notes |
| TaskExecution.ApplyChunkResult | ankiops/ai/task_execution.py:159-201 | an error result warns once per task and changes nothing else; a good result adds exactly the changed decks, the chunk's changes and one warning per rejected task, and patches exactly the accepted notes |
| TaskApply.InvalidFields | ankiops/ai/task_apply.py:21-25 | the invalid fields are exactly the write fields whose edited value is not a string |
| TaskApply.ValidateEditedNote | ankiops/ai/task_apply.py:13-28 | a different note key is "response note_key mismatch"; otherwise the note passes exactly when every write field is a string, and else the message lists the invalid fields |
| TaskApply.ChangedNames | ankiops/ai/task_apply.py:39-44 | the changed fields are exactly the write fields whose edited text differs from the original |
| TaskApply.ChangesOf | ankiops/ai/task_apply.py:39-58 | one change record per changed field, in order, each with different original and edited text |
| TaskApply.PatchedFields | ankiops/ai/task_apply.py:45 | after the patch a changed write field holds its edited text and every other field is as it was |
| TaskApply.Step | ankiops/ai/task_apply.py:39-58 | one write field extends the changed names, the change log and the patched fields exactly when its text differs |
| TaskApply.TaskRunResult.AddWarning | ankiops/ai/task_apply.py:62-72 | below the cap the warning is appended, at or above it the dropped count grows; nothing else changes and the cap is kept |
| TaskApply.TaskRunResult.ApplyNoteChanges | ankiops/ai/task_apply.py:31-59 | the note's fields become the patched fields, the changed count and the change log grow by the changed fields, and the answer is whether any field changed |
| TaskApply.TaskRunResult.WriteFields | ankiops/ai/task_apply.py:39-58 | the loop's count, log and fields are those of the change specification |
| Validators.BraceSpan | ankiops/ai/validators.py:19-22 | a span, when found, runs from a `{` to a later `}` inside the text |
| Validators.ParseBody | ankiops/ai/validators.py:9-27 | text that decodes to an object is taken as is; otherwise a result is the object decoded from the brace span; text with no span that does not decode is "not a valid JSON object" |
| Validators.NoBraceNoSpan | ankiops/ai/validators.py:19-21 | text without `{` has no span |
| Validators.SpanOfWrapped | ankiops/ai/validators.py:19-22 | in brace-free text around an object, the span is exactly the object |
| Validators.WrappedObjectRecovered | ankiops/ai/validators.py:9-27 | an object wrapped in brace-free prose or a code fence is recovered by the fallback |
| Validators.ListEntry | ankiops/ai/validators.py:37-47 | a list item is accepted exactly when it is an object with a non-blank string `note_key`, and is stored under that key |
| Validators.MapEntry | ankiops/ai/validators.py:60-74 | a map member is accepted exactly when its key is non-blank and its value an object; it is stored under the value's valid `note_key`, else under the member's key |
| Validators.CollectIff | ankiops/ai/validators.py:35-75 | collecting succeeds exactly when every entry is accepted and no key repeats, and then each entry is stored under its key and nothing else is |
| Validators.CollectErrSticks | ankiops/ai/validators.py:37-46 | the first refused entry decides the error |
| Validators.ListEntries | ankiops/ai/validators.py:37-47 | one entry per list item, in order |
| Validators.MapEntries | ankiops/ai/validators.py:60-74 | one entry per map member, in order |
| Validators.NotesPayload | ankiops/ai/validators.py:33 | the payload is the value under `notes` when present, else the whole object |
| Validators.NormalizeParsed | ankiops/ai/validators.py:33-75 | a list is collected by `note_key`; an object with `note_key` and `fields` is one note under its valid key or the missing-key error; any other object is collected member by member; anything else is the shape error |
| Validators.CollectEntries | ankiops/ai/validators.py:35-75 | the loop's result is that of the collecting specification |
| Validators.NormalizeBatchResponse | ankiops/ai/validators.py:30-75 | the method's result is that of the normalising specification |
| Validators.ListFormIff | ankiops/ai/validators.py:35-48 | a list response is accepted exactly when every item is an object with a valid, distinct `note_key`, and each item is then stored under its key |
| Validators.MapFormIff | ankiops/ai/validators.py:59-75 | a map response is accepted exactly when every key is non-blank, every value an object and the resolved keys distinct, and each value is then stored under its resolved key |
| ModelConfig.CoerceProviderAccepts | ankiops/ai/model_config.py:213-219 | a provider is accepted exactly when its stripped lower-cased form is non-empty and registered |
| ModelConfig.CoerceProviderValue | ankiops/ai/model_config.py:213-219 | an accepted provider is returned stripped and lower-cased, and its registry entry is what `get_provider_spec` returns |
| ModelConfig.PositiveField | ankiops/ai/model_config.py:31-32 | a timeout or in-flight field is accepted exactly when absent or positive, defaults when absent, and is refused with pydantic's "greater than 0" message |
| ModelConfig.ValidateModelFileParts | ankiops/ai/model_config.py:34-55 | a validated file passed every field validator, and its fields are their outputs |
| ModelConfig.ValidateModelFileMeans | ankiops/ai/model_config.py:21-55 | a validated file has filled optional strings, a stripped model, positive numbers (defaults when absent) and keeps its provider and default flag |
| ModelConfig.AddProfile | ankiops/ai/model_config.py:96-115 | adding a profile keeps the dict consistent and adds exactly one key |
| ModelConfig.AddProfileMeans | ankiops/ai/model_config.py:96-115 | a file is added exactly when its `id` is absent or equals the file stem and the stem is new; a mismatched id gives the id error; the profile is stored under the stem, named after it, appended in order, and recorded as a default when marked so |
| ModelConfig.FileStep | ankiops/ai/model_config.py:82-115 | one file read and added grows the profile dict by one key |
| ModelConfig.FileStepAdds | ankiops/ai/model_config.py:82-115 | a file that is added was read successfully and added by `AddProfile` |
| ModelConfig.FilesSpec | ankiops/ai/model_config.py:80-115 | loading succeeds with one profile per file |
| ModelConfig.Stems | ankiops/ai/model_config.py:96 | one stem per path, in order |
| ModelConfig.StemsSnoc | ankiops/ai/model_config.py:96 | the stems of a longer list extend those of its prefix |
| ModelConfig.FilesSpecNext | ankiops/ai/model_config.py:82-115 | the loop over the files advances one file at a time |
| ModelConfig.FilesErrSticks | ankiops/ai/model_config.py:82-103 | the first failing file decides the error |
| ModelConfig.LoadProfileFiles | ankiops/ai/model_config.py:80-115 | the loop's result is that of the files specification |
| ModelConfig.YamlFiles | ankiops/ai/model_config.py:72-76 | the kept files are exactly the listed ones with a `.yaml` or `.yml` suffix, in any letter case |
| ModelConfig.ModelFiles | ankiops/ai/model_config.py:72-76 | the same files, sorted |
| ModelConfig.LoadModelConfigs | ankiops/ai/model_config.py:63-128 | the loader returns what the loading specification gives |
| ModelConfig.LoadModelConfigsMeans | ankiops/ai/model_config.py:63-128 | a loaded config comes from an existing directory with model files, holds one profile per file keyed and named by the stem, at most one file marked default, and the default is that file's profile or else the first one |
| ModelConfig.MultipleDefaultsRefused | ankiops/ai/model_config.py:117-121 | two or more files marked default give the multiple-defaults error listing them |
| ModelConfig.RequireRuntimeStringMeans | ankiops/ai/model_config.py:227-246 | a required runtime string exists exactly when its normalised value does, and is then filled; a blank or absent value gives the non-empty error |
| ModelConfig.ResolvePositiveInt | ankiops/ai/model_config.py:249-253 | the value (or fallback when absent) is accepted exactly when it is an integer (not a boolean) and positive, else "KEY must be > 0" |
| ModelConfig.SelectProfile | ankiops/ai/model_config.py:144-148 | the selected profile is the one named by the stripped override or default name |
| ModelConfig.SelectProviders | ankiops/ai/model_config.py:150-152 | the selected and runtime providers are coerced registered ids, the runtime one from the override when non-empty, and the provider spec is the runtime provider's |
| ModelConfig.UnknownProfileRefused | ankiops/ai/model_config.py:146-148 | an unknown profile name gives the error listing the known names sorted |
| ModelConfig.ResolveValuesParts | ankiops/ai/model_config.py:155-210 | each resolved field is the normalisation of its override with the fallback the provider change selects, and transport and key requirement come from the provider spec |
| ModelConfig.ResolvedProvider | ankiops/ai/model_config.py:131-210 | a resolved config names a known profile and a registered provider with that provider's transport and key requirement, positive numbers and filled model and base URL |
| ModelConfig.ResolvedFallbacks | ankiops/ai/model_config.py:153-178 | without base-URL or key-variable overrides, a changed provider takes the provider's defaults, and an unchanged one takes the profile's overrides before the provider's defaults |
| ModelConfig.ResolvedApiKey | ankiops/ai/model_config.py:189-197 | a non-blank key override wins, stripped; otherwise the environment variable's stripped value when set and non-blank; otherwise no key |
| ModelProfiles.ParsePositiveInt | ankiops/ai/model_profiles.py:178-185 | a value `int()` accepts and that is positive is kept; a missing, unparsable or non-positive value gives the fallback |
| ModelProfiles.ParsePositiveIntRoundTrip | ankiops/ai/model_profiles.py:178-185 | a positive number, given as a number or as its decimal text, reads back as itself |
| ModelProfiles.NormalizeProfileMeans | ankiops/ai/model_profiles.py:130-175 | a non-mapping is refused; a profile loads exactly when its stripped provider is `local` or `remote` and its stripped model and base URL are non-empty, with the provider error first and the model error next; the loaded fields are the stripped values |
| ModelProfiles.NormalizeProfileWellFormed | ankiops/ai/model_profiles.py:130-175 | a loaded profile carries its name, and every field is filled and stripped, the API-key variable defaulted, both numbers positive |
| ModelProfiles.StrippedIsFilled | ankiops/ai/model_profiles.py:148-150 | a stripped non-empty string is filled (non-empty and equal to its own strip) |
| ModelProfiles.DefaultEnvFilled | ankiops/ai/model_profiles.py:164-165 | the default API-key variable name is filled |
| ModelProfiles.KeyOfStable | ankiops/ai/model_profiles.py:44-51 | the key a profile is stored under strips to the stripped profile name, and keying is idempotent |
| ModelProfiles.PutKeepsKeyed | ankiops/ai/model_profiles.py:47-51 | storing a well-formed profile under its key keeps every stored profile named after its key |
| ModelProfiles.StepKeepsKeyed | ankiops/ai/model_profiles.py:44-51 | one entry of the profiles mapping keeps that property and leaves at least one profile |
| ModelProfiles.ProfilesSpecKeyed | ankiops/ai/model_profiles.py:43-51 | every profile the loop loads is well formed and named after its key, and a non-empty mapping loads at least one |
| ModelProfiles.ProfilesSpecNext | ankiops/ai/model_profiles.py:44-51 | the loop over the profiles mapping advances one entry at a time |
| ModelProfiles.ProfilesErrSticks | ankiops/ai/model_profiles.py:45-51 | the first failing entry decides the error: later entries do not change it |
| ModelProfiles.NormalizeProfiles | ankiops/ai/model_profiles.py:43-51 | the loop's result is that of the profiles specification |
| ModelProfiles.LoadModelsConfig | ankiops/ai/model_profiles.py:25-70 | the loader returns what the corrected loading specification gives |
| ModelProfiles.ChooseDefaultMeans | ankiops/ai/model_profiles.py:53-64 | a loaded default names a loaded profile; without `default_profile` the first profile is the default when its key is its stripped name, and otherwise the missing stripped name is the error |
| ModelProfiles.LoadModelsConfigMeans | ankiops/ai/model_profiles.py:25-70 | a loaded config has at least one profile, all well formed and named after their keys, and a default among them; a missing `models.yaml` is the not-found error |
| ModelProfiles.ModelsConfigFromProfiles | ankiops/ai/model_profiles.py:39-64 | once the profiles load, the outcome is decided by the choice of the default |
| ModelProfiles.DefaultIsFirstProfile | ankiops/ai/model_profiles.py:53-55 | without `default_profile` the first profile in file order becomes the default |
| ModelProfiles.SingleProfile | ankiops/ai/model_profiles.py:44-51 | a mapping with one valid profile loads to a dict holding just that profile under its key |
| ModelProfiles.SingleProfileKeys | ankiops/ai/model_profiles.py:44-51 | that dict's keys are exactly the one key |
| ModelProfiles.PaddedProfileNameRejected | ankiops/ai/model_profiles.py:44-64 | as written, a single profile whose name has surrounding spaces and no `default_profile` is refused: its stripped name is not a key |
| ModelProfiles.PaddedProfileNameLoads | ankiops/ai/model_profiles.py:44-64 | keyed by the stripped name, the same file loads with that profile as default |
| ModelProfiles.ResolveRuntimeAiConfigMeans | ankiops/ai/model_profiles.py:73-127 | an unknown profile lists the known ones; otherwise each override wins when non-empty, the result exists exactly when the provider is valid, model and base URL are non-empty after stripping and both numbers are positive, a blank key variable becomes the default, and the API key is the override or the environment's value |
| ModelProfiles.ResolveDefaultProfile | ankiops/ai/model_profiles.py:86-127 | without overrides, the default profile resolves to its own stripped values, failing only on an empty model or base URL |
| ModelProfiles.ResolveWithoutOverrides | ankiops/ai/model_profiles.py:86-127 | a well-formed default profile resolves, without overrides, to exactly its own fields and the environment's key |
| Providers.RegistryIsWellFormed | ankiops/ai/providers.py:21-43 | every registered provider is keyed by its id and uses chat completions; only `ollama` needs no API key and has no key variable |
| Providers.ProviderIdsMeans | ankiops/ai/providers.py:46-48 | the provider ids are exactly the registry's keys, each once, in sorted order |
| Providers.GetProviderSpec | ankiops/ai/providers.py:51-58 | a provider is found exactly when its stripped lower-cased id is registered, and the spec returned is that id's; else the error lists the sorted ids |
| Providers.LookupNormalized | ankiops/ai/providers.py:51-58 | looking up an already normalised id finds exactly the registry's entry |
| TaskConfig.DefaultBatchSizeMeans | ankiops/ai/task_config.py:16-21 | a batch mode has a default size exactly when it is `single`, `batch` or `collection`, and that size is positive |
| TaskConfig.SchemaName | ankiops/ai/task_config.py:42-48 | the schema is accepted exactly when absent or `ai.task.v1` after stripping, else "must equal 'ai.task.v1'" |
| TaskConfig.ModelRef | ankiops/ai/task_config.py:60-70 | an absent model stays absent; a blank one is refused; `default` in any case becomes absent; otherwise the stripped name, never the alias |
| TaskConfig.BatchSizeField | ankiops/ai/task_config.py:34 | `batch_size` is accepted exactly when absent or positive, unchanged, else pydantic's "greater than 0" message |
| TaskConfig.RequiredPatternField | ankiops/ai/task_config.py:38-101 | `read_fields`/`write_fields` are accepted exactly when the pattern validator accepts a present value, and then hold at least one non-blank stripped name |
| TaskConfig.Missing | ankiops/ai/task_config.py:118 | the missing write fields are exactly those not among the read fields |
| TaskConfig.MissingEmptyIff | ankiops/ai/task_config.py:118-119 | nothing is missing exactly when every write field is a read field |
| TaskConfig.BatchAndFieldsMeans | ankiops/ai/task_config.py:103-125 | the model validator passes exactly when the mode is valid, `single` has size 1 (given or defaulted) and the write fields are read fields; the size is the given one or the mode's default; a subset failure gives the message listing what is missing |
| TaskConfig.ValidateTaskParts | ankiops/ai/task_config.py:25-125 | a validated task passed every field validator and the model validator, and its fields are their outputs |
| TaskConfig.ValidateTaskMeans | ankiops/ai/task_config.py:25-125 | a validated task is well formed (filled strings, valid mode and size, non-empty field lists with writes among reads) and its size is the given one or the mode default |
| TaskConfig.RequireTaskRef | ankiops/ai/task_config.py:184-187 | a blank reference is refused with "Task name/path cannot be empty."; otherwise it is returned stripped |
| TaskConfig.AssertIsTaskFile | ankiops/ai/task_config.py:190-193 | a path is accepted exactly when its suffix is `.yaml` or `.yml` in any case, else the extension error |
| TaskConfig.ResolveTaskPathFound | ankiops/ai/task_config.py:128-134 | a resolved task path is the first existing candidate for the stripped reference, and is a YAML file |
| TaskConfig.TaskErrorsDiffer | ankiops/ai/task_config.py:137-192 | the not-found and extension errors can never be confused |
| TaskConfig.ResolveTaskPathNotFound | ankiops/ai/task_config.py:132-137 | the not-found error listing the candidates arises exactly when no candidate exists |
| TaskConfig.BuildTaskMeans | ankiops/ai/task_config.py:156-181 | a task is refused exactly when its `id` differs from the file stem; otherwise its id is the stem, the scopes default to `*`, the description to "" and the fields and size are the validated ones |
| TaskConfig.LoadTaskConfigMeans | ankiops/ai/task_config.py:140-181 | a loaded task comes from the resolved YAML path, carries its stem as id and is usable: filled instructions, valid mode and size, non-empty scopes and field lists, writes among reads, no default alias as model |
| PromptLoader.StripFilled | ankiops/ai/prompt_loader.py:36-39 | a non-blank string, stripped, is filled |
| PromptLoader.NonEmptyString | ankiops/ai/prompt_loader.py:41-47 | a required string is accepted exactly when not blank, and is then stored stripped; else "must be a non-empty string" |
| PromptLoader.OptionalString | ankiops/ai/prompt_loader.py:31-39 | an absent optional string stays absent; a present one is accepted exactly when not blank, and stored stripped |
| PromptLoader.PatternField | ankiops/ai/prompt_loader.py:49-64 | a pattern-list field is accepted exactly when the shared pattern normaliser accepts it, with its result or its message at the field's location |
| PromptLoader.ValidatePrompt | ankiops/ai/prompt_loader.py:19-64 | a validated prompt is well formed and its text is the stripped prompt; a blank prompt is refused |
| PromptLoader.RequirePromptRef | ankiops/ai/prompt_loader.py:110-113 | a blank reference is refused with "Prompt name/path cannot be empty."; otherwise it is returned stripped |
| PromptLoader.AssertIsPromptFile | ankiops/ai/prompt_loader.py:116-121 | a path is accepted exactly when it has a YAML suffix and is not `models.yaml`; the suffix error comes first |
| PromptLoader.PromptFileErrorsDiffer | ankiops/ai/prompt_loader.py:76-120 | the not-found error differs from the extension and models-file errors |
| PromptLoader.ResolvePromptPathFound | ankiops/ai/prompt_loader.py:67-73 | a resolved prompt path is the first existing candidate for the stripped reference, a YAML file other than `models.yaml` |
| PromptLoader.ResolvePromptPathBlank | ankiops/ai/prompt_loader.py:69-112 | a blank reference is refused before any candidate is tried |
| PromptLoader.ResolvePromptPathNotFound | ankiops/ai/prompt_loader.py:71-76 | the not-found error listing the candidates arises exactly when no candidate exists |
| PromptLoader.BuildPromptConfig | ankiops/ai/prompt_loader.py:95-107 | the name defaults to the file stem, target fields and note types to `*`, send fields to the target fields; all three lists are non-empty |
| PromptLoader.BuiltIsUsable | ankiops/ai/prompt_loader.py:95-107 | a validated prompt builds into a usable prompt config |
| PromptLoader.LoadPromptMeans | ankiops/ai/prompt_loader.py:79-107 | a loaded prompt comes from the resolved existing YAML file and is usable |
| Prompts.PromptCandidatesShape | ankiops/ai/prompts.py:26-33 | a reference with a suffix has one candidate, itself in the prompts directory; otherwise three: `.yaml`, `.yml`, then bare |
| Prompts.ChosenMeans | ankiops/ai/prompts.py:20-39 | the reference as a path of its own wins when it exists; otherwise the first existing candidate is chosen; nothing is chosen exactly when neither exists |
| Prompts.NotModelsFile | ankiops/ai/prompts.py:22-38 | a chosen file is refused exactly when it is named `models.yaml` |
| Prompts.ResolveByChosen | ankiops/ai/prompts.py:14-42 | resolution is "not found" naming the candidates when nothing is chosen, and otherwise the models-file check of the chosen path |
| Prompts.ScanCandidates | ankiops/ai/prompts.py:35-39 | the loop finds the index of the first existing candidate |
| Prompts.ResolvePromptPath | ankiops/ai/prompts.py:14-42 | the method's result is that of the resolution specification |
| Prompts.ResolveBlank | ankiops/ai/prompts.py:16-18 | a blank reference is refused with "Prompt name/path cannot be empty." |
| Prompts.ResolveOk | ankiops/ai/prompts.py:14-42 | a path is resolved exactly when the reference is not blank and a file is chosen that is not `models.yaml`, and it is that existing file |
| Prompts.ResolveModelsFile | ankiops/ai/prompts.py:22-38 | the models-file error arises exactly when the chosen file is `models.yaml` |
| Prompts.ResolveNotFound | ankiops/ai/prompts.py:41-42 | "not found" arises exactly when neither the reference nor any candidate exists |
| Prompts.PromptMapping | ankiops/ai/prompts.py:49-51 | an empty document reads as the empty mapping, a mapping as itself, anything else is the mapping error |
| Prompts.KeyOrLegacy | ankiops/ai/prompts.py:59-64 | the current key's value is used when present, else the legacy key's |
| Prompts.PromptName | ankiops/ai/prompts.py:53 | a missing or falsy `name` gives the stripped file stem; a non-empty string name gives itself stripped |
| Prompts.RequirePrompt | ankiops/ai/prompts.py:54-56 | the prompt is accepted exactly when it is a non-blank string, else the required-key error |
| Prompts.PromptModelProfile | ankiops/ai/prompts.py:74-80 | an absent or null `model_profile` gives none; a present one is accepted exactly when a non-blank string, stored stripped; else its error |
| Prompts.CheckTemperature | ankiops/ai/prompts.py:82-88 | the temperature is accepted exactly when absent or numeric to `float()`, else "must be numeric" |
| Prompts.CoercedUsable | ankiops/ai/prompts.py:102-115 | a coerced pattern list is non-empty with no blank entry |
| Prompts.PatternFieldsMeans | ankiops/ai/prompts.py:58-72 | the three lists are usable; missing target fields default to `*`, missing send fields to the target fields, missing note types to `*` |
| Prompts.PromptRequired | ankiops/ai/prompts.py:54-56 | a missing or blank prompt refuses the file with the required-key error |
| Prompts.PromptDefaults | ankiops/ai/prompts.py:53-72 | a loaded prompt's defaults: `*` targets and note types, send fields from targets, name from the stem |
| Prompts.PromptFromMappingParts | ankiops/ai/prompts.py:53-99 | a loaded prompt is assembled from the name, the stripped prompt, the three lists and the model profile, in that validation order |
| Prompts.PromptFromMappingMeans | ankiops/ai/prompts.py:45-99 | a loaded prompt is usable, carries its path, and its text is the stripped prompt value |
| Prompts.PromptProfileAndTemperature | ankiops/ai/prompts.py:74-88 | a loaded prompt's model profile is filled when present, and absent exactly when the key is absent or null; its temperature was numeric |
| Prompts.LoadPromptConfigMeans | ankiops/ai/prompts.py:45-99 | a loaded prompt comes from the resolved existing file, which is not `models.yaml`, and is usable |
| AiFiles.PathParts | ankiops/ai/task_config.py:196-209 | a path splits into its directory part, ending in `/` or empty, and its name, which has no `/` |
| AiFiles.NameOfParts | ankiops/ai/task_config.py:203 | joining a directory part and a slash-free name gives back both |
| AiFiles.StemSuffixOf | ankiops/ai/task_config.py:156-191 | a name is its stem followed by its suffix; no suffix means the stem is the name; a non-empty name has a non-empty stem |
| AiFiles.StemSuffix | ankiops/ai/task_config.py:156-191 | the same for the name of a path, whose stem has no `/` |
| AiFiles.WithSuffixShape | ankiops/ai/task_config.py:201-209 | `with_suffix` fails exactly on an empty name, and otherwise keeps the directory and stem and replaces the suffix |
| AiFiles.SuffixedName | ankiops/ai/task_config.py:206-209 | a stem followed by `.yaml` or `.yml` has exactly that stem and suffix |
| AiFiles.NewName | ankiops/ai/task_config.py:206-209 | the new name is the stem and the suffix, without `/` |
| AiFiles.JoinPathName | ankiops/ai/task_config.py:203 | joining onto a directory keeps the reference's name, suffix and stem |
| AiFiles.YamlSuffixes | ankiops/ai/task_config.py:15 | `.yaml` and `.yml` are plain suffixes |
| AiFiles.CandidatesShape | ankiops/ai/task_config.py:196-209 | a reference with a suffix is tried as is; otherwise as `.yaml` then `.yml` beside it; only a reference with an empty name fails |
| AiFiles.FirstExisting | ankiops/ai/task_config.py:132-134 | the index found is the first existing candidate; none exactly when no candidate exists |
| AiFiles.PatternValues | ankiops/ai/task_config.py:91-96 | a string is a one-item list, a list of strings is itself, anything else is refused |
| AiFiles.CleanPatterns | ankiops/ai/task_config.py:88-101 | the wrong type is refused; otherwise the items are the stripped non-blank values, non-empty when accepted; a string gives itself stripped or nothing |
| AiFiles.PatternsIff | ankiops/ai/task_config.py:98 | a pattern is kept exactly when it is non-blank and the strip of a given value, and is already stripped |
| AiFiles.NormalizePatternList | ankiops/ai/task_config.py:88-101 | absent or null stays absent; the wrong type and an empty result give their messages; otherwise the cleaned patterns |
| AiFiles.CoercePatternList | ankiops/ai/prompts.py:102-115 | absent or null gives the fallback; the wrong type and an empty result give the prompt-key messages; otherwise the cleaned patterns |
| AiFiles.LoadYamlMapping | ankiops/ai/config_utils.py:14-29 | an empty document reads as the empty mapping, a mapping as itself, anything else is "must be a YAML mapping" |
| AiFiles.PyStr | ankiops/ai/model_profiles.py:141 | Python's `str` of a string is the string itself |
| Chunking.ChunksFlatten | ankiops/ai/runner.py:236-239 | `_chunk_tasks` (and `_chunked` of ankiops/db.py:129-131, the same slicing) loses, duplicates and reorders no item: the batches concatenate back to the list |
| Chunking.ChunksSizes | ankiops/ai/runner.py:236-239 | every batch is non-empty and at most `batch_size` long, and every batch but the last is exactly `batch_size` long |
| Chunking.ChunksCount | ankiops/ai/runner.py:236-239 | there are `ceil(len(tasks) / batch_size)` batches |
| Glob.SelectNames | ankiops/ai/runner.py:150-155 | `_matching_field_names` keeps exactly the field names some pattern matches, in the fields' order |
| Glob.SelectNamesSubsequence | ankiops/ai.py:421-429 | the matching field names are a subsequence of the field names |
| Glob.SelectAllWithStar | ankiops/ai.py:421-429 | a pattern list containing `*` selects every field name, in order |
| Glob.StarMatchesAll | ankiops/ai.py:428 | `fnmatchcase(name, "*")` holds for every name |
| Glob.LiteralMatch | ankiops/ai.py:428 | a pattern without `*`, `?` or `[` matches exactly the equal name |

## Findings

| source | as written | input that shows it | evidently intended | confidence | as-written member | corrected member |
|---|---|---|---|---|---|---|
| ankiops/llm/runner.py:86-91 | `_build_note_payload` builds `NotePayload` without `deck_name`, which the dataclass requires (ankiops/llm/models.py:96-102). The `TypeError` is raised outside the per-note `try`, so `run_task` ends at the first note with an editable field | any task and note for which some field is editable | the payload carries the deck name the runner has at hand, and the run goes on note by note | not executed; high (the keyword is plainly missing) | LlmRunner.PayloadAsWrittenRaises | LlmRunner.PayloadSpecIff |
| ankiops/db.py:163-192 | `set_notes_bulk` keeps, scanning backwards, only rows whose key and id were not seen later. It then deletes by id and inserts. Its docstring promises the semantics of `set_note` | an empty table and the rows `("a", 1), ("b", 1), ("b", 2)`: the bulk write leaves `a -> 1, b -> 2`, while `set_note` in turn leaves only `b -> 2` | the bulk write equals `set_note` applied to each row in order | not executed; high | Db.SetNotesBulkNotSequential | Db.SequentialSpecIsPutAll |
| ankiops/note_type_config.py:167-179 | `_validate_global_consistency` compares a new type's fields only with prefixes already registered, never with each other | a custom type with fields `X` and `Y` that both use the prefix `Z:` | a prefix stands for one field name across the whole registry, including within one type | not executed; medium | NoteTypes.DuplicatePrefixRegistered | NoteTypes.CoherenceErrorIff |
| ankiops/llm/models.py:129 | the summary line puts the three characters `â€”` after the note count | every summary line | an em dash (U+2014), of which `â€”` is the UTF-8 bytes read as Windows-1252 | not executed; low (other strings in the repository show the same mis-decoding, so the damage may lie in this copy of the file and not in the program) | LlmModels.SummaryDashGarbled | LlmModels.SummaryDashCorrected |
| ankiops/import_notes.py:45-48 | the field-prefix test cuts the line at the first occurrence of the field value, not at the occurrence the line ends with | a file whose notes start with `Q: 1 + 1` and `Q: 1`: for the second note (value `1`) the line found is `Q: 1 + 1`, because the first `1` follows `Q: ` | the prefix is the part of the line before the value it ends with, so only `Q: 1` qualifies | not executed; medium | ImportNotes.FirstLineAsWrittenPicksOtherNote | ImportNotes.PrefixedMeans |
| ankiops/ai/model_profiles.py:44-64 | profiles are stored under their raw names, but the default is looked up by its stripped name | `profiles: {" fast ": {...}}` with no `default_profile`: the default becomes `fast`, which is not a key, and loading fails | names are stripped where they are checked and resolved, so the file loads with `fast` as its default | not executed; medium | ModelProfiles.PaddedProfileNameRejected | ModelProfiles.PaddedProfileNameLoads |

## Left out

**Reading of the source**
- LlmRunner.RunTask: `run_task` reads `patch.edits` (ankiops/llm/runner.py:258), but `NotePatch` declares `updated_fields` (ankiops/llm/models.py:106-108). The provider's reply is modelled as `Reply.Patch(noteKey, edits)`, a note key and an edits list, so the model takes the attribute as `edits` and the `AttributeError` this mismatch would raise is not modelled.

**Numbers and characters**
- LlmConfigLoader.AsInt: no float values. `Json` has no real-number case.
- LlmConfigLoader.RequireVersion: no float values, so `version: 1.0`, which ankiops/llm/config_loader.py:62 accepts because `1.0 == 1`, is not represented.
- LlmConfigLoader.RequestOptionsSpec: no float values, so `temperature: 0.2` (ankiops/llm/config_loader.py:110-121 accepts any int or float and converts it with `float()`) and `max_output_tokens: 5.0` are not represented. Only integers and booleans are.
- Text.ParseInt: ASCII digits `0`-`9` only. Python's `int()` also accepts every other Unicode decimal digit (category Nd), such as `２`, so such a choice answer is refused here with the "integers" error.
- Models.HasCloze: ASCII digits only in `{{c<n>::`. The regex `\d` at ankiops/models.py:15 also matches other Unicode decimal digits, such as `{{c١::x}}`.
- Text.Lower: ASCII letters only. It stands for Python's `lower()` and `casefold()` in provider names, file suffixes, choice field names and `default` in TaskConfig.ModelRef, and those fold every Unicode letter.
- Text.Upper: ASCII letters only. It stands for Python's `upper()` in Config.SanitizeFilename's reserved-name test.
- Json.StrOr: a non-string member reads as the default, where Python's `str()` would print it, such as a numeric `note_type`.
- AiFiles.PyStr: `str()` is exact for strings only. Other values get a fixed rendering, not Python's `repr`.
- The temperature of AI prompts, tasks and model profiles (a float) is not modelled. LlmConfigLoader keeps an integer temperature as a real.

**Concurrency and order**
- AiRunner.Dispatch: the asyncio semaphore, `gather` and `max_in_flight` (ankiops/ai/runner.py:242-284) are not modelled. The chunks are answered one by one, and the results are in chunk order, which is the order the source sorts them back into.
- `dispatch_chunks_and_apply`, `run_chunk` scheduling and `drain_first_completed` (ankiops/ai/task_execution.py:69-156), and `process_task_stream` (ankiops/ai/task_execution.py:24-50), are concurrency. TaskExecution models the chunking, the per-chunk error normalisation and `apply_chunk_result` sequentially.
- The event-loop check of `PromptRunner.run` (ankiops/ai/runner.py:90-111) is left out. AiRunner.Run models `run_async`.
- Ai.RunSpec: the selected decks must be dicts. Python raises `AttributeError` on a non-dict deck at `deck.get`, and that exception is not modelled.
- AiRunner.RunSpec: the same, for the same reason.
- Aliasing is not modelled. The deep copies (ankiops/ai.py:444, ankiops/ai/runner.py:64) are value semantics here. The source mutates `note_fields` in place, and here the methods return the patched fields and decks. A deck listed twice in the input therefore cannot share its edits between the two entries.
- JSON objects with a repeated member name read the first member. Python's `json.loads` keeps the last.

**Duplicated code**
- `task_selection.require_decks` (ankiops/ai/task_selection.py:137-144) is the same check as `_require_decks` (ankiops/ai/runner.py:139-143). It is modelled once, in AiRunner.RunSpec and Ai.RunSpec.
- `resolve_prompt_path` and `load_prompt_config` in ankiops/ai.py:238-316 repeat ankiops/ai/prompts.py. They are modelled once, in module Prompts.

**Outside systems**
- HTTP clients are external I/O and not modelled: `OpenAICompatibleInlineEditor` (ankiops/ai.py:362-418), the LLM provider adapters and the AI client. Editors and providers are function parameters.
- `_parse_json_object` in ankiops/ai.py:343-359 decodes an HTTP reply and is not modelled. The brace fallback of ankiops/ai/validators.py is modelled in Validators.
- In ankiops/llm/runner.py:40-161, `_provider_for`, `_load_config_set`, `list_tasks` and `list_providers` construct clients and list files. They are not modelled: LlmRunner takes the loaded configuration set and the provider as parameters.
- The Anki transport (AnkiConnect calls) is not modelled. Anki's state is the maps and lists the planners receive, and the answers to a batch of actions are a parameter.
- File reads, writes, renames, unlinks and globbing are not modelled. A deck file is its content string, the folder is a set of present paths, and the pending writes are returned.
- YAML parsing, `json.loads`/`dumps` and pydantic's type checks are not modelled. A parsed document is a `Json` value, and a schema check is a function parameter.
- The Markdown↔HTML converters are not part of this model. They are function parameters.
- The hash functions (blake2b for media names, blake3 fingerprints, sha256 of note-type definitions in ankiops/sync_note_types.py:15-45) are not modelled. Digests are values or functions supplied by the caller.
- SQLite connections, and the rename and recreate of a corrupt store (ankiops/db.py:60-72), are not modelled. The same holds for ankiops/key_map.py:56-68 and KeyMap's `save`/`close` (ankiops/key_map.py:74-82).
- The `input()` prompts of ankiops/markdown_to_anki.py:41-89 (`_prompt_invalid_ids`) and ankiops/anki_to_markdown.py:212-229 and 295-313 are interactive and not modelled. So are the CLI, logging and `init`.

**Orchestration around the modelled planners**
- ExportNotes.StoreQueued: the queued note mappings are stored with the corrected bulk write (Db.SqliteDb.SetNotesBulkSequential, whose table is Db.PutAll), not with `set_notes_bulk` as written (ankiops/export_notes.py:450). The two differ when the queue names one key twice, for instance after a note was duplicated in Anki. The store holds `"old"->1`, and notes 1 and 2 both embed key `k`. The source then keeps `"old"->1` beside `k->2`, while the model leaves only `k->2`. ExportNotes.CollectionSpec, and with it ExportNotes.ExportCollection, state the corrected store. The as-written write is Db.SqliteDb.SetNotesBulk, and the difference is the db.py row under Findings.
- MarkdownToAnki.FlushedContent: `FileState.validate_no_duplicate_first_lines` (ankiops/markdown_to_anki.py:107) is not part of this model. The model takes it to refuse exactly when two assigned notes share `first_line`, as its name says. Its message text is not known, so the refusal carries the fixed text `DuplicateFirstLines`.
- `FileState.validate_ids` is not part of this model.
- `import_file` (ankiops/markdown_to_anki.py:442-463) and the file-reading phases of `import_collection` are not modelled. MarkdownToAnki takes the parsed files.
- `_load_deck_markdown_state` (ankiops/export_notes.py:61-75) reads a deck file and is not modelled. ExportNotes receives the parsed notes.
- The deck-rename file move (ankiops/export_notes.py:415-426) and `prune_orphan_note_fingerprints` (ankiops/export_notes.py:453, not defined in the adapter's shown source) are not modelled.
- `file_stem_to_deck_name` and `deck_name_to_file_stem` are not part of this model. They are the function parameter `deckNameOf`, and the export's changes are kept in the order they are added.
- In ankiops/anki_to_markdown.py, `_format_blocks` (31-62), `export_deck` (192-242), the file indexing, untracked-note prompt and file renames of `export_collection` (245-340), and its relevant-deck selection and orphan removal (341-370, 408-436) are not modelled. AnkiToMarkdown models `_reconcile_blocks`, `_sync_deck` and the move detection.
- `extract_media_references` (ankiops/sync_media.py:50-70) and `update_markdown_media_references` (ankiops/sync_media.py:101-158) work by regex over files and are not modelled. SyncMedia takes the referenced names as sets.
- `_calculate_hash` (ankiops/sync_media.py:73-81) is left out for the same reason as the other hashes.
- Two paths of `apply_hashing` are left out: the early return for a missing media folder (ankiops/sync_media.py:180-181) and the exception path that logs and records an error (ankiops/sync_media.py:227-232).
