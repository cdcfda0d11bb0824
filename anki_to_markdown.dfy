/** The older exporter: each Anki deck is rendered as one Markdown file of
    blocks, each block headed by its note's key comment. An existing file is
    reconciled block by block, so that its order survives and only new notes
    are appended. */
module AnkiToMarkdown {
  import opened Wrappers
  import Text
  import Config
  import Sorting
  import opened SyncSummaries
  import KM = KeyMap
  import Tables

  /** One formatted Anki note: its note id (which orders notes by creation)
      and its Markdown block. */
  datatype Block = Block(noteId: int, content: string)

  /** A change of the export: its kind, the note id (none for a deletion),
      the block key and, except for a deletion, the new block content. */
  datatype BlockChange = BlockChange(kind: ChangeType, noteId: Option<int>, blockKey: string,
                                     content: Option<string>)

  function EntryKeys(existing: seq<(string, string)>): (r: set<string>)
    ensures forall k :: k in r <==> exists i :: 0 <= i < |existing| && existing[i].0 == k
  {
    set i | 0 <= i < |existing| :: existing[i].0
  }

  /** The blocks of an existing file form a dict: no key twice. */
  predicate DistinctEntries(existing: seq<(string, string)>) {
    forall i, j :: 0 <= i < j < |existing| ==> existing[i].0 != existing[j].0
  }

  // ---------------------------------------------------------------- _reconcile_blocks

  /** The change for one block of the existing file: `Delete` when Anki has
      no block with its key, `Skip` when Anki's content is the same, and
      `Update` carrying Anki's content otherwise. */
  function ExistingChange(blocks: map<string, Block>, entry: (string, string)): (c: BlockChange)
    ensures c.blockKey == entry.0
    ensures c.kind == Delete <==> entry.0 !in blocks
    ensures c.kind == Delete ==> c.noteId == None && c.content == None
    ensures entry.0 in blocks ==>
      && (c.kind == Skip <==> blocks[entry.0].content == entry.1)
      && (c.kind == Update <==> blocks[entry.0].content != entry.1)
      && c.noteId == Some(blocks[entry.0].noteId) && c.content == Some(blocks[entry.0].content)
  {
    if entry.0 in blocks then
      var b := blocks[entry.0];
      BlockChange(if b.content == entry.1 then Skip else Update, Some(b.noteId), entry.0, Some(b.content))
    else
      BlockChange(Delete, None, entry.0, None)
  }

  function CreateOf(key: string, b: Block): BlockChange {
    BlockChange(Create, Some(b.noteId), key, Some(b.content))
  }

  /** The appended part: one `Create` for every key of `added`, each once,
      with Anki's note id and content, in ascending note-id order. */
  predicate CreateTail(blocks: map<string, Block>, added: set<string>, tail: seq<BlockChange>) {
    && added <= blocks.Keys
    && (forall i :: 0 <= i < |tail| ==>
          tail[i].blockKey in added && tail[i] == CreateOf(tail[i].blockKey, blocks[tail[i].blockKey]))
    && (forall i, j :: 0 <= i < j < |tail| ==> tail[i].blockKey != tail[j].blockKey)
    && (forall k :: k in added ==> exists i :: 0 <= i < |tail| && tail[i].blockKey == k)
    && (forall i, j :: 0 <= i < j < |tail| ==>
          blocks[tail[i].blockKey].noteId <= blocks[tail[j].blockKey].noteId)
  }

  /** What `_reconcile_blocks` returns: one change per block of the file, in
      file order, followed by the creations of the blocks only Anki has. On a
      first export (no file, or a file without blocks) that is every block. */
  predicate Reconciled(blocks: map<string, Block>, existing: seq<(string, string)>, changes: seq<BlockChange>) {
    && |changes| >= |existing|
    && (forall i :: 0 <= i < |existing| ==> changes[i] == ExistingChange(blocks, existing[i]))
    && CreateTail(blocks, blocks.Keys - EntryKeys(existing), changes[|existing|..])
  }

  function EntryId(e: (string, Block)): int { e.1.noteId }

  /** `_reconcile_blocks(block_by_id, existing_blocks)`. The new keys are a
      set, so the order among notes with equal ids is not fixed. */
  method ReconcileBlocks(blocks: map<string, Block>, existing: seq<(string, string)>)
    returns (changes: seq<BlockChange>)
    ensures Reconciled(blocks, existing, changes)
  {
    changes := [];
    var i := 0;
    while i < |existing|
      invariant 0 <= i <= |existing| && |changes| == i
      invariant forall j :: 0 <= j < i ==> changes[j] == ExistingChange(blocks, existing[j])
    {
      changes := changes + [ExistingChange(blocks, existing[i])];
      i := i + 1;
    }
    var added := blocks.Keys - EntryKeys(existing);
    var entries := SortedEntries(blocks, added);
    var k := 0;
    while k < |entries|
      invariant 0 <= k <= |entries| && |changes| == |existing| + k
      invariant forall j :: 0 <= j < |existing| ==> changes[j] == ExistingChange(blocks, existing[j])
      invariant forall j :: 0 <= j < k ==> changes[|existing| + j] == CreateOf(entries[j].0, entries[j].1)
    {
      changes := changes + [CreateOf(entries[k].0, entries[k].1)];
      k := k + 1;
    }
    CreatesFromEntries(blocks, added, entries, changes[|existing|..]);
  }

  /** The entries of `added`, each once, sorted by note id. */
  ghost predicate SortedEntriesOf(blocks: map<string, Block>, added: set<string>, entries: seq<(string, Block)>) {
    && added <= blocks.Keys
    && Sorting.SortedBy(entries, EntryId)
    && (forall e :: multiset(entries)[e] == if e.0 in added && e.1 == blocks[e.0] then 1 else 0)
  }

  /** `sorted((bid, *block_by_id[bid]) for bid in new_ids)` by note id. */
  method SortedEntries(blocks: map<string, Block>, added: set<string>) returns (entries: seq<(string, Block)>)
    requires added <= blocks.Keys
    ensures SortedEntriesOf(blocks, added, entries)
  {
    entries := [];
    var remaining := added;
    while remaining != {}
      invariant remaining <= added
      invariant SortedEntriesOf(blocks, added - remaining, entries)
      decreases |remaining|
    {
      var k :| k in remaining;
      entries := Sorting.InsertBy((k, blocks[k]), entries, EntryId);
      remaining := remaining - {k};
    }
  }

  lemma CreatesFromEntries(blocks: map<string, Block>, added: set<string>, entries: seq<(string, Block)>,
                           tail: seq<BlockChange>)
    requires SortedEntriesOf(blocks, added, entries)
    requires |tail| == |entries| && forall j :: 0 <= j < |tail| ==> tail[j] == CreateOf(entries[j].0, entries[j].1)
    ensures CreateTail(blocks, added, tail)
  {
    forall j | 0 <= j < |entries| ensures entries[j].0 in added && entries[j].1 == blocks[entries[j].0] {
      assert entries[j] in multiset(entries);
    }
    forall i, j | 0 <= i < j < |tail| ensures tail[i].blockKey != tail[j].blockKey {
      TwiceCounted(entries, i, j);
    }
    forall k | k in added ensures exists i :: 0 <= i < |tail| && tail[i].blockKey == k {
      assert (k, blocks[k]) in multiset(entries);
      var i :| 0 <= i < |entries| && entries[i] == (k, blocks[k]);
      assert tail[i].blockKey == k;
    }
    forall i, j | 0 <= i < j < |tail|
      ensures blocks[tail[i].blockKey].noteId <= blocks[tail[j].blockKey].noteId
    {
      assert EntryId(entries[i]) <= EntryId(entries[j]);
    }
  }

  /** Two equal elements at distinct positions count twice. */
  lemma TwiceCounted<T>(s: seq<T>, i: nat, j: nat)
    requires i < j < |s|
    ensures s[i] == s[j] ==> multiset(s)[s[i]] >= 2
  {
    if s[i] == s[j] {
      assert s == s[..i] + [s[i]] + s[i + 1..j] + [s[j]] + s[j + 1..];
    }
  }

  /** Every Anki block is kept by some change that is not a deletion. */
  lemma AnkiBlocksKept(blocks: map<string, Block>, existing: seq<(string, string)>, changes: seq<BlockChange>, k: string)
    requires Reconciled(blocks, existing, changes) && k in blocks
    ensures exists i :: 0 <= i < |changes| && changes[i].blockKey == k && changes[i].kind != Delete
  {
    var n := |existing|;
    if k in EntryKeys(existing) {
      var i :| 0 <= i < n && existing[i].0 == k;
      assert changes[i] == ExistingChange(blocks, existing[i]);
    } else {
      var tail := changes[n..];
      assert CreateTail(blocks, blocks.Keys - EntryKeys(existing), tail);
      assert k in blocks.Keys - EntryKeys(existing);
      var j :| 0 <= j < |tail| && tail[j].blockKey == k;
      assert changes[n + j] == tail[j];
    }
  }

  /** No two changes that keep a block keep the same one. */
  lemma KeptOnce(blocks: map<string, Block>, existing: seq<(string, string)>, changes: seq<BlockChange>, i: nat, j: nat)
    requires DistinctEntries(existing) && Reconciled(blocks, existing, changes)
    requires i < j < |changes| && changes[i].kind != Delete && changes[j].kind != Delete
    ensures changes[i].blockKey != changes[j].blockKey
  {
    var n := |existing|;
    var tail := changes[n..];
    if j < n {
      assert changes[i].blockKey == existing[i].0 && changes[j].blockKey == existing[j].0;
    } else if i < n {
      assert changes[j] == tail[j - n];
      assert changes[i].blockKey == existing[i].0;
      assert changes[i].blockKey in EntryKeys(existing);
    } else {
      assert changes[i] == tail[i - n] && changes[j] == tail[j - n];
    }
  }

  /** A deletion names a block of the file that Anki no longer has; every
      change is a creation, update, skip or deletion. */
  lemma DeletionsStale(blocks: map<string, Block>, existing: seq<(string, string)>, changes: seq<BlockChange>, i: nat)
    requires Reconciled(blocks, existing, changes) && i < |changes|
    ensures changes[i].kind in {Create, Update, Skip, Delete}
    ensures changes[i].kind == Delete ==> changes[i].blockKey in EntryKeys(existing) && changes[i].blockKey !in blocks
  {
    var n := |existing|;
    if i >= n {
      assert changes[i] == changes[n..][i - n];
    } else {
      assert changes[i] == ExistingChange(blocks, existing[i]);
    }
  }

  /** Every Anki block is kept by exactly one change, and only file blocks
      that Anki no longer has are deleted. */
  lemma ReconcilePartition(blocks: map<string, Block>, existing: seq<(string, string)>, changes: seq<BlockChange>)
    requires DistinctEntries(existing) && Reconciled(blocks, existing, changes)
    ensures forall k :: k in blocks ==> exists i :: 0 <= i < |changes| && changes[i].blockKey == k && changes[i].kind != Delete
    ensures forall i, j :: 0 <= i < j < |changes| && changes[i].kind != Delete && changes[j].kind != Delete
              ==> changes[i].blockKey != changes[j].blockKey
    ensures forall i :: 0 <= i < |changes| && changes[i].kind == Delete
              ==> changes[i].blockKey in EntryKeys(existing) && changes[i].blockKey !in blocks
    ensures forall i :: 0 <= i < |changes| ==> changes[i].kind in {Create, Update, Skip, Delete}
  {
    forall k | k in blocks
      ensures exists i :: 0 <= i < |changes| && changes[i].blockKey == k && changes[i].kind != Delete
    {
      AnkiBlocksKept(blocks, existing, changes, k);
    }
    forall i, j | 0 <= i < j < |changes| && changes[i].kind != Delete && changes[j].kind != Delete
      ensures changes[i].blockKey != changes[j].blockKey
    {
      KeptOnce(blocks, existing, changes, i, j);
    }
    forall i | 0 <= i < |changes|
      ensures changes[i].kind in {Create, Update, Skip, Delete}
      ensures changes[i].kind == Delete ==> changes[i].blockKey in EntryKeys(existing) && changes[i].blockKey !in blocks
    {
      DeletionsStale(blocks, existing, changes, i);
    }
  }

  // ---------------------------------------------------------------- file content

  /** The contents the new file keeps: the non-empty contents of the
      creations, updates and skips, in change order. */
  function KeptContents(changes: seq<BlockChange>): (r: seq<string>)
    ensures forall s :: s in r <==> s != "" && exists i :: 0 <= i < |changes| && changes[i].kind != Delete
                                                && changes[i].content == Some(s)
    decreases |changes|
  {
    if |changes| == 0 then []
    else
      var c := changes[|changes| - 1];
      var init := changes[..|changes| - 1];
      var rest := KeptContents(init);
      assert forall i :: 0 <= i < |init| ==> init[i] == changes[i];
      if c.kind != Delete && c.content.Some? && c.content.value != "" then rest + [c.content.value] else rest
  }

  /** `f"<!-- deck_key: {deck_key} -->\n"`. */
  function DeckKeyLine(deckKey: string): string {
    "<!-- deck_key: " + deckKey + " -->\n"
  }

  /** The deck file: the deck-key line, then the kept blocks joined by the
      note separator. */
  function RenderDeck(deckKey: string, changes: seq<BlockChange>): (r: string)
    ensures Text.StartsWith(r, DeckKeyLine(deckKey))
  {
    var r := DeckKeyLine(deckKey) + Text.Join(KeptContents(changes), Config.NoteSeparator);
    assert r[..|DeckKeyLine(deckKey)|] == DeckKeyLine(deckKey);
    DeckKeyLine(deckKey) + Text.Join(KeptContents(changes), Config.NoteSeparator)
  }

  lemma KeptContentIsAnki(blocks: map<string, Block>, existing: seq<(string, string)>,
                          changes: seq<BlockChange>, i: nat)
    requires Reconciled(blocks, existing, changes)
    requires i < |changes| && changes[i].kind != Delete && changes[i].content.Some?
    ensures changes[i].blockKey in blocks && blocks[changes[i].blockKey].content == changes[i].content.value
  {
    var n := |existing|;
    if i < n {
      assert changes[i] == ExistingChange(blocks, existing[i]);
    } else {
      assert changes[i] == changes[n..][i - n];
    }
  }

  /** After reconciling, the file keeps exactly Anki's non-empty blocks. */
  lemma KeptContentsAreAnkiBlocks(blocks: map<string, Block>, existing: seq<(string, string)>,
                                  changes: seq<BlockChange>)
    requires Reconciled(blocks, existing, changes)
    ensures forall s :: s in KeptContents(changes) <==> s != "" && exists k :: k in blocks && blocks[k].content == s
  {
    forall s | s in KeptContents(changes) ensures exists k :: k in blocks && blocks[k].content == s {
      var i :| 0 <= i < |changes| && changes[i].kind != Delete && changes[i].content == Some(s);
      KeptContentIsAnki(blocks, existing, changes, i);
    }
    forall k | k in blocks && blocks[k].content != "" ensures blocks[k].content in KeptContents(changes) {
      AnkiBlocksKept(blocks, existing, changes, k);
      var i :| 0 <= i < |changes| && changes[i].blockKey == k && changes[i].kind != Delete;
      DeletionsStale(blocks, existing, changes, i);
      KeptContentIsAnki(blocks, existing, changes, i);
    }
  }

  // ---------------------------------------------------------------- _sync_deck

  /** What `_sync_deck` needs of an existing file: its deck key, if any, and
      its blocks by key, in file order. */
  datatype FileState = FileState(deckKey: Option<string>, blocks: seq<(string, string)>)

  /** Python truthiness of an optional key. */
  predicate Given(k: Option<string>) { k.Some? && k.value != "" }

  /** The deck key `_sync_deck` settles on: the key the map holds for the
      deck, else the existing file's key, else a freshly generated one. */
  function DeckKeyChoice(mapped: Option<string>, file: Option<FileState>, generated: string): string {
    if Given(mapped) then mapped.value
    else if file.Some? && Given(file.value.deckKey) then file.value.deckKey.value
    else generated
  }

  /** The deck-key resolution of `_sync_deck`. A mapped key is kept as it
      is; any other choice is written to the key map. `generated` stands for
      `KeyMap.generate_key()`. */
  method ResolveDeckKey(keys: KM.KeyMap, deckId: int, file: Option<FileState>, generated: string)
    returns (deckKey: string)
    requires keys.Valid()
    modifies keys
    ensures keys.Valid() && keys.notes == old(keys.notes)
    ensures var mapped := MappedKey(old(keys.decks), deckId);
            && deckKey == DeckKeyChoice(mapped, file, generated)
            && (Given(mapped) ==> keys.decks == old(keys.decks))
            && (!Given(mapped) ==> keys.decks == Tables.Put(old(keys.decks), deckKey, deckId))
  {
    var mapped := keys.GetDeckKey(deckId);
    assert mapped == MappedKey(keys.decks, deckId) by {
      if mapped.Some? {
        KeyOfDeckUnique(keys.decks, deckId, mapped.value);
      }
    }
    if Given(mapped) {
      deckKey := mapped.value;
    } else {
      deckKey := DeckKeyChoice(mapped, file, generated);
      keys.SetDeck(deckKey, deckId);
    }
  }

  /** The key a bijective table holds for an id. */
  ghost function KeyOfDeck(t: Tables.Table, id: int): (r: Option<string>)
    requires id in t.Values
    ensures r.Some? && r.value in t && t[r.value] == id
  {
    var k :| k in t && t[k] == id;
    Some(k)
  }

  /** `get_deck_key(deck_id)` as a value. */
  ghost function MappedKey(t: Tables.Table, id: int): Option<string> {
    if id in t.Values then KeyOfDeck(t, id) else None
  }

  lemma KeyOfDeckUnique(t: Tables.Table, id: int, k: string)
    requires Tables.Injective(t) && k in t && t[k] == id
    ensures KeyOfDeck(t, id) == Some(k)
  {
  }

  /** `_sync_deck(deck_name, deck_id, ...)` once the deck's blocks are
      formatted: `None` content and no changes for a deck without blocks;
      otherwise the deck key is resolved, the file's blocks reconciled and
      the new file rendered. */
  method SyncDeck(keys: KM.KeyMap, deckId: int, blocks: map<string, Block>, file: Option<FileState>,
                  generated: string)
    returns (changes: seq<BlockChange>, content: Option<string>)
    requires keys.Valid()
    modifies keys
    ensures keys.Valid() && keys.notes == old(keys.notes)
    ensures blocks == map[] ==> changes == [] && content == None && keys.decks == old(keys.decks)
    ensures blocks != map[] ==>
      && Reconciled(blocks, if file.Some? then file.value.blocks else [], changes)
      && content == Some(RenderDeck(DeckKeyChoice(MappedKey(old(keys.decks), deckId), file, generated), changes))
  {
    if blocks == map[] {
      return [], None;
    }
    var deckKey := ResolveDeckKey(keys, deckId, file, generated);
    var existing := if file.Some? then file.value.blocks else [];
    changes := ReconcileBlocks(blocks, existing);
    content := Some(RenderDeck(deckKey, changes));
  }

  // ---------------------------------------------------------------- move detection

  /** One deck of an export pass: the block keys of its new file and, when
      a file existed before, the block keys of that file. */
  datatype DeckPass = DeckPass(newKeys: set<string>, oldKeys: Option<set<string>>)

  predicate CreatedIn(d: DeckPass, k: string) {
    d.oldKeys.Some? && k in d.newKeys && k !in d.oldKeys.value
  }

  predicate DeletedIn(d: DeckPass, k: string) {
    d.oldKeys.Some? && k in d.oldKeys.value && k !in d.newKeys
  }

  /** The move detection of `export_collection`: the keys created in some
      deck's file and deleted from some deck's file during the same pass.
      Decks without a previous file take no part. */
  method DetectMoves(decks: seq<DeckPass>) returns (moved: set<string>)
    ensures forall k :: k in moved <==>
      (exists i :: 0 <= i < |decks| && CreatedIn(decks[i], k)) && (exists j :: 0 <= j < |decks| && DeletedIn(decks[j], k))
  {
    var created: set<string> := {};
    var deleted: set<string> := {};
    var n := 0;
    while n < |decks|
      invariant 0 <= n <= |decks|
      invariant forall k :: k in created <==> exists i :: 0 <= i < n && CreatedIn(decks[i], k)
      invariant forall k :: k in deleted <==> exists i :: 0 <= i < n && DeletedIn(decks[i], k)
    {
      var d := decks[n];
      if d.oldKeys.Some? {
        created := created + (d.newKeys - d.oldKeys.value);
        deleted := deleted + (d.oldKeys.value - d.newKeys);
      }
      n := n + 1;
    }
    moved := created * deleted;
  }
}
