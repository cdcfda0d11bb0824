/** The note-type step of a sync: every note type of the collection's
    note-type folder is created in Anki when Anki does not have it yet, or
    sent as an update when it does, unless the store remembers that the same
    set of note types was synced before and nothing needs creating. */
module NoteTypeSync {
  import opened Wrappers
  import Text
  import Sorting
  import Models

  type NoteTypeConfig = Models.NoteTypeConfig

  /** What the store remembers of the last completed note-type sync: the
      digest of the configurations and the signature of their names. */
  datatype SyncState = SyncState(hash: string, signature: string)

  /** The effects of one run: the summary returned to the caller, the note
      types sent to Anki to be created and to be updated, and the state
      written to the store, if any. */
  datatype Outcome = Outcome(summary: Option<string>, created: seq<NoteTypeConfig>,
                             updated: seq<NoteTypeConfig>, saved: Option<SyncState>)

  function ConfigNames(configs: seq<NoteTypeConfig>): (r: seq<string>)
    ensures |r| == |configs| && forall i :: 0 <= i < |r| ==> r[i] == configs[i].name
  {
    seq(|configs|, i requires 0 <= i < |configs| => configs[i].name)
  }

  /** `_note_types_names_signature`: the sorted names joined by commas. */
  function NamesSignature(configs: seq<NoteTypeConfig>): string {
    Text.Join(Sorting.SortStrings(ConfigNames(configs)), ",")
  }

  /** The signature depends on which names there are, not on the order in
      which the folder lists the note types. */
  lemma SignatureOrderFree(a: seq<NoteTypeConfig>, b: seq<NoteTypeConfig>)
    requires multiset(ConfigNames(a)) == multiset(ConfigNames(b))
    ensures NamesSignature(a) == NamesSignature(b)
  {
    Sorting.SortStringsPermutation(ConfigNames(a), ConfigNames(b));
  }

  // ---------------------------------------------------------------- partition

  /** `to_create`: the note types whose name Anki does not have, in order. */
  function ToCreate(configs: seq<NoteTypeConfig>, existing: set<string>): (r: seq<NoteTypeConfig>)
    ensures forall c :: c in r <==> c in configs && c.name !in existing
    ensures r == [] <==> forall c :: c in configs ==> c.name in existing
    ensures |r| <= |configs|
    decreases |configs|
  {
    if |configs| == 0 then []
    else
      var last := configs[|configs| - 1];
      var rest := ToCreate(configs[..|configs| - 1], existing);
      assert forall c :: c in configs <==> c in configs[..|configs| - 1] || c == last by {
        assert configs == configs[..|configs| - 1] + [last];
      }
      if last.name in existing then rest else rest + [last]
  }

  /** `to_update`: the note types whose name Anki already has, in order. */
  function ToUpdate(configs: seq<NoteTypeConfig>, existing: set<string>): (r: seq<NoteTypeConfig>)
    ensures forall c :: c in r <==> c in configs && c.name in existing
    ensures |r| <= |configs|
    decreases |configs|
  {
    if |configs| == 0 then []
    else
      var last := configs[|configs| - 1];
      var rest := ToUpdate(configs[..|configs| - 1], existing);
      assert forall c :: c in configs <==> c in configs[..|configs| - 1] || c == last by {
        assert configs == configs[..|configs| - 1] + [last];
      }
      if last.name in existing then rest + [last] else rest
  }

  /** Every note type goes to exactly one of the two lists, as often as the
      folder lists it. */
  lemma {:induction false} PartitionExact(configs: seq<NoteTypeConfig>, existing: set<string>)
    ensures multiset(ToCreate(configs, existing)) + multiset(ToUpdate(configs, existing)) == multiset(configs)
    ensures |ToCreate(configs, existing)| + |ToUpdate(configs, existing)| == |configs|
    decreases |configs|
  {
    if |configs| > 0 {
      var init := configs[..|configs| - 1];
      var last := configs[|configs| - 1];
      PartitionExact(init, existing);
      assert configs == init + [last];
      assert multiset(configs) == multiset(init) + multiset{last};
      if last.name in existing {
        assert ToUpdate(configs, existing) == ToUpdate(init, existing) + [last];
        assert ToCreate(configs, existing) == ToCreate(init, existing);
      } else {
        assert ToCreate(configs, existing) == ToCreate(init, existing) + [last];
        assert ToUpdate(configs, existing) == ToUpdate(init, existing);
      }
    }
  }

  // ---------------------------------------------------------------- the run

  /** The summary of a run that changed something: `"<n> created"` and
      `"<n> synced"`, each only when its list is not empty, joined by ", ". */
  function Parts(created: nat, updated: nat): seq<string> {
    (if created > 0 then [Text.NatToString(created) + " created"] else [])
    + (if updated > 0 then [Text.NatToString(updated) + " synced"] else [])
  }

  /** Whether the run may skip Anki: a store is given, nothing needs
      creating, and the store's state is this folder's digest and names. */
  predicate Cached(configs: seq<NoteTypeConfig>, existing: set<string>, hasStore: bool,
                   stored: Option<SyncState>, localHash: string)
  {
    hasStore && ToCreate(configs, existing) == []
    && stored == Some(SyncState(localHash, NamesSignature(configs)))
  }

  /** `sync_note_types`. `configs` is what the folder holds, `existing` the
      names Anki has, `hasStore` whether a store was passed, `stored` its
      remembered state, and `localHash` the digest of `configs`. */
  function SyncNoteTypes(configs: seq<NoteTypeConfig>, existing: set<string>, hasStore: bool,
                         stored: Option<SyncState>, localHash: string): (r: Outcome)
    ensures |configs| == 0 ==> r == Outcome(None, [], [], None)
    ensures |configs| > 0 ==> r.summary.Some?
    ensures |configs| > 0 && Cached(configs, existing, hasStore, stored, localHash) ==>
      && r.created == [] && r.updated == [] && r.saved == None
      && r.summary == Some(Text.NatToString(|configs|) + " up to date (cached)")
    ensures |configs| > 0 && !Cached(configs, existing, hasStore, stored, localHash) ==>
      && r.created == ToCreate(configs, existing)
      && r.updated == ToUpdate(configs, existing)
      && (r.saved.Some? <==> hasStore)
      && (hasStore ==> r.saved == Some(SyncState(localHash, NamesSignature(configs))))
      && r.summary == Some(Text.Join(Parts(|r.created|, |r.updated|), ", "))
  {
    if |configs| == 0 then Outcome(None, [], [], None)
    else
      var toCreate := ToCreate(configs, existing);
      var toUpdate := ToUpdate(configs, existing);
      PartitionExact(configs, existing);
      if Cached(configs, existing, hasStore, stored, localHash) then
        Outcome(Some(Text.NatToString(|toUpdate|) + " up to date (cached)"), [], [], None)
      else
        var parts := Parts(|toCreate|, |toUpdate|);
        if |parts| == 0 then Outcome(None, [], [], None)
        else
          var state := SyncState(localHash, NamesSignature(configs));
          Outcome(Some(Text.Join(parts, ", ")), toCreate, toUpdate, if hasStore then Some(state) else None)
  }

  /** A second run right after a first one that went through Anki, with the
      same folder and a store, takes the cached path: the first run created
      every missing type and saved the state the second one compares with. */
  lemma SecondRunCached(configs: seq<NoteTypeConfig>, existing: set<string>, stored: Option<SyncState>,
                        localHash: string)
    requires |configs| > 0
    ensures var first := SyncNoteTypes(configs, existing, true, stored, localHash);
            var after := existing + set c | c in first.created :: c.name;
            var again := if first.saved.Some? then first.saved else stored;
            SyncNoteTypes(configs, after, true, again, localHash).summary
              == Some(Text.NatToString(|configs|) + " up to date (cached)")
  {
    var first := SyncNoteTypes(configs, existing, true, stored, localHash);
    var after := existing + set c | c in first.created :: c.name;
    var again := if first.saved.Some? then first.saved else stored;
    assert forall c :: c in configs ==> c.name in after by {
      if !Cached(configs, existing, true, stored, localHash) {
        forall c | c in configs ensures c.name in after {
          if c.name !in existing {
            assert c in first.created;
          }
        }
      }
    }
    assert Cached(configs, after, true, again, localHash);
  }
}
