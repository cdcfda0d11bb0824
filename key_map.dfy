/** The older identity store: two tables, `notes` and `decks`, each mapping
    a user-visible key to the Anki-assigned integer id. The two namespaces
    are independent, and every setter deletes the row holding the id before
    binding the key, so each table stays a bijection. */
module KeyMap {
  import opened Wrappers
  import opened Tables

  class KeyMap {
    var notes: Table
    var decks: Table

    /** Both namespaces are bijections between keys and ids. */
    ghost predicate Valid()
      reads this
    {
      Injective(notes) && Injective(decks)
    }

    /** `KeyMap.load` on a fresh database: both tables are created empty. */
    constructor ()
      ensures Valid() && notes == map[] && decks == map[]
    {
      notes := map[];
      decks := map[];
    }

    // ---------------------------------------------------------------- notes

    /** `get_note_id(key)`: the id bound to the key, `None` when unbound. */
    method GetNoteId(key: string) returns (r: Option<int>)
      requires Valid()
      ensures r.Some? <==> key in notes
      ensures r.Some? ==> notes[key] == r.value
    {
      r := IdOf(notes, key);
    }

    /** `get_note_key(note_id)`: the unique key holding the id. */
    method GetNoteKey(noteId: int) returns (r: Option<string>)
      requires Valid()
      ensures r.Some? <==> noteId in notes.Values
      ensures r.Some? ==> r.value in notes && notes[r.value] == noteId
    {
      if noteId in notes.Values {
        var k :| k in notes && notes[k] == noteId;
        r := Some(k);
      } else {
        r := None;
      }
    }

    /** `get_key(note_id)`: an alias of `get_note_key`. */
    method GetKey(noteId: int) returns (r: Option<string>)
      requires Valid()
      ensures r.Some? <==> noteId in notes.Values
      ensures r.Some? ==> r.value in notes && notes[r.value] == noteId
    {
      r := GetNoteKey(noteId);
    }

    /** `set_note(key, note_id)`: deletes any row holding the id, then inserts
        or replaces the key's row. Decks are untouched. */
    method SetNote(key: string, noteId: int)
      requires Valid()
      modifies this
      ensures Valid()
      ensures notes == Put(old(notes), key, noteId) && decks == old(decks)
    {
      PutInjective(notes, key, noteId);
      notes := Put(notes, key, noteId);
    }

    /** `remove_note_by_key(key)`. */
    method RemoveNoteByKey(key: string)
      requires Valid()
      modifies this
      ensures Valid()
      ensures notes == old(notes) - {key} && decks == old(decks)
    {
      DeleteInjective(notes, {}, {key});
      assert WithoutKeys(notes, {key}) == notes - {key};
      notes := notes - {key};
    }

    /** `remove_note_by_id(note_id)`. */
    method RemoveNoteById(noteId: int)
      requires Valid()
      modifies this
      ensures Valid()
      ensures notes == WithoutId(old(notes), noteId) && decks == old(decks)
    {
      DeleteInjective(notes, {noteId}, {});
      assert WithoutIds(notes, {noteId}) == WithoutId(notes, noteId);
      notes := WithoutId(notes, noteId);
    }

    // ---------------------------------------------------------------- decks

    /** `get_deck_id(key)`. */
    method GetDeckId(key: string) returns (r: Option<int>)
      requires Valid()
      ensures r.Some? <==> key in decks
      ensures r.Some? ==> decks[key] == r.value
    {
      r := IdOf(decks, key);
    }

    /** `get_deck_key(deck_id)`. */
    method GetDeckKey(deckId: int) returns (r: Option<string>)
      requires Valid()
      ensures r.Some? <==> deckId in decks.Values
      ensures r.Some? ==> r.value in decks && decks[r.value] == deckId
    {
      if deckId in decks.Values {
        var k :| k in decks && decks[k] == deckId;
        r := Some(k);
      } else {
        r := None;
      }
    }

    /** `set_deck(key, deck_id)`: the deck-namespace twin of `set_note`. */
    method SetDeck(key: string, deckId: int)
      requires Valid()
      modifies this
      ensures Valid()
      ensures decks == Put(old(decks), key, deckId) && notes == old(notes)
    {
      PutInjective(decks, key, deckId);
      decks := Put(decks, key, deckId);
    }

    /** `remove_deck_by_key(key)`. */
    method RemoveDeckByKey(key: string)
      requires Valid()
      modifies this
      ensures Valid()
      ensures decks == old(decks) - {key} && notes == old(notes)
    {
      DeleteInjective(decks, {}, {key});
      assert WithoutKeys(decks, {key}) == decks - {key};
      decks := decks - {key};
    }
  }

  /** After `set_note(key, id)` the two lookups are mutual inverses on the new
      pair, and every other key keeps its id unless it held `id`. */
  lemma {:induction false} SetNoteLookups(t: Table, key: string, id: int, other: string)
    requires Injective(t)
    ensures IdOf(Put(t, key, id), key) == Some(id)
    ensures KeyOf(Put(t, key, id), id) == Some(key)
    ensures other != key && other in t && t[other] != id ==>
      IdOf(Put(t, key, id), other) == IdOf(t, other)
    ensures other != key && other in t && t[other] == id ==>
      IdOf(Put(t, key, id), other).None?
  {
    PutInjective(t, key, id);
  }

  /** In a bijection, looking up a key's id and then that id's key returns
      the key, and the other way round. */
  lemma {:induction false} LookupsInverse(t: Table, key: string, id: int)
    requires Injective(t)
    ensures IdOf(t, key) == Some(id) <==> KeyOf(t, id) == Some(key)
  {
    if key in t && t[key] == id {
      KeyOfUnique(t, key);
    }
  }
}
