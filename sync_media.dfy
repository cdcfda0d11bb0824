/** Media files beside the Markdown collection: how references are
    normalised, how a content digest is put into a file name, the hashing
    pass that renames the files of the local `media/` folder, and the two
    copy directions between that folder and Anki's media folder.

    A folder is a map from file name to content digest (the 8 lower-case
    hex digits of a 4-byte BLAKE2b hash). A directory listing is a sequence
    of names taken before a pass starts. */
module SyncMedia {
  import opened Wrappers
  import Text
  import opened SyncSummaries

  const MediaPrefix: string := "media/"

  const AngleBrackets: set<char> := {'<', '>'}

  // ---------------------------------------------------------------- references

  /** `_normalize_media_path`: angle brackets are stripped from both ends,
      then one leading `media/` is dropped. */
  function NormalizeMediaPath(path: string): (r: string)
    ensures |r| <= |path|
  {
    var t := Text.StripChars(path, AngleBrackets);
    if Text.StartsWith(t, MediaPrefix) then t[|MediaPrefix|..] else t
  }

  /** A reference written as `<media/name>`, the form in which renamed
      references are written back, normalises to the bare file name. */
  lemma NormalizeWrittenReference(name: string)
    requires name == [] || name[|name| - 1] !in AngleBrackets
    ensures NormalizeMediaPath("<" + MediaPrefix + name + ">") == name
  {
    var v := MediaPrefix + name;
    var u := v + ">";
    assert "<" + MediaPrefix + name + ">" == "<" + u;
    assert u[0] == 'm' && v[|v| - 1] !in AngleBrackets;
    Text.LStripOne('<', u, AngleBrackets);
    Text.RStripOne(v, '>', AngleBrackets);
    assert v[..|MediaPrefix|] == MediaPrefix && v[|MediaPrefix|..] == name;
  }

  /** A path with no bracket at either end and no `media/` prefix is already
      normal. */
  lemma NormalizePlain(path: string)
    requires path == [] || (path[0] !in AngleBrackets && path[|path| - 1] !in AngleBrackets)
    requires !Text.StartsWith(path, MediaPrefix)
    ensures NormalizeMediaPath(path) == path
  {
  }

  // ---------------------------------------------------------------- hashed names

  /** Where `PurePath.suffix` starts: at the last dot, provided it is neither
      the first nor the last character of the name. */
  function SuffixStart(name: string): (r: Option<nat>)
    ensures r.Some? ==> 0 < r.value < |name| - 1 && name[r.value] == '.'
    ensures r.Some? ==> forall j :: r.value < j < |name| ==> name[j] != '.'
  {
    match Text.LastIndexOf(name, '.')
    case Some(i) => if 0 < i < |name| - 1 then Some(i) else None
    case None => None
  }

  /** `PurePath.suffix`: the extension with its dot, or empty. */
  function Suffix(name: string): string {
    match SuffixStart(name)
    case Some(i) => name[i..]
    case None => []
  }

  /** `PurePath.stem`: the name without its extension. */
  function Stem(name: string): string {
    match SuffixStart(name)
    case Some(i) => name[..i]
    case None => name
  }

  lemma StemSuffix(name: string)
    ensures Stem(name) + Suffix(name) == name
  {
  }

  /** What `_blake2b(digest_size=4).hexdigest()` produces. */
  predicate IsDigest(h: string) {
    |h| == 8 && forall i :: 0 <= i < 8 ==> Text.IsLowerHex(h[i])
  }

  /** The hash captured by `_([a-f0-9]{8})\.[^.]+$` when it matches the
      name: the dot is then the last one and something follows it. */
  function ExistingHash(name: string): (r: Option<string>)
    ensures r.Some? ==>
      (SuffixStart(name).Some? && 9 <= SuffixStart(name).value
       && name[SuffixStart(name).value - 9] == '_'
       && r.value == name[SuffixStart(name).value - 8..SuffixStart(name).value]
       && IsDigest(r.value))
  {
    match Text.LastIndexOf(name, '.')
    case Some(i) =>
      if 9 <= i < |name| - 1 && name[i - 9] == '_' && IsDigest(name[i - 8..i]) then Some(name[i - 8..i])
      else None
    case None => None
  }

  /** The stem with an existing `_<hash>` removed. */
  function BaseStem(name: string): string {
    var stem := Stem(name);
    if ExistingHash(name).Some? then stem[..|stem| - 9] else stem
  }

  /** `_get_hashed_filename`: `_<digest>` is put before the extension,
      replacing a hash already there; a name that already carries this
      digest is returned as it is. */
  function HashedFilename(name: string, digest: string): string {
    match ExistingHash(name)
    case Some(h) =>
      if h == digest then name
      else
        var stem := Stem(name);
        stem[..|stem| - 9] + "_" + digest + Suffix(name)
    case None => Stem(name) + "_" + digest + Suffix(name)
  }

  /** Whatever the name held before, the result is its base stem, the digest
      and its extension. */
  lemma HashedFilenameForm(name: string, digest: string)
    ensures HashedFilename(name, digest) == BaseStem(name) + "_" + digest + Suffix(name)
  {
    match ExistingHash(name)
    case Some(h) =>
      var i := SuffixStart(name).value;
      if h == digest {
        assert name == name[..i - 9] + "_" + h + name[i..];
      }
    case None =>
  }

  lemma LastIndexOfAt(s: string, c: char, k: nat)
    requires k < |s| && s[k] == c
    requires forall j :: k < j < |s| ==> s[j] != c
    ensures Text.LastIndexOf(s, c) == Some(k)
  {
  }

  /** A name with an extension, once hashed, carries the digest where the
      hash pattern finds it, keeps its base stem and extension, and is left
      alone by a second hashing with the same digest. */
  lemma HashedIdempotent(name: string, digest: string)
    requires IsDigest(digest) && Suffix(name) != []
    ensures var r := HashedFilename(name, digest);
      ExistingHash(r) == Some(digest) && BaseStem(r) == BaseStem(name) && Suffix(r) == Suffix(name)
      && HashedFilename(r, digest) == r
  {
    HashedFilenameForm(name, digest);
    var b := BaseStem(name);
    var sfx := Suffix(name);
    var r := b + "_" + digest + sfx;
    var i := SuffixStart(name).value;
    assert sfx == name[i..];
    var k := |b| + 9;
    assert r[k..] == sfx;
    assert r[k] == '.';
    forall j | k < j < |r| ensures r[j] != '.' {
      assert r[j] == name[i + (j - k)];
    }
    LastIndexOfAt(r, '.', k);
    assert SuffixStart(r) == Some(k);
    assert r[k - 9] == '_';
    assert r[k - 8..k] == digest;
    assert ExistingHash(r) == Some(digest);
    assert Stem(r) == r[..k];
    assert r[..k][..|r[..k]| - 9] == b;
  }

  // ---------------------------------------------------------------- the hashing pass

  /** A folder's regular files: name to content digest. */
  type Folder = map<string, string>

  /** A `dict[str, str]`: its keys in insertion order beside the mapping. */
  datatype Renames = Renames(keys: seq<string>, items: map<string, string>)

  /** `d[k] = v`: a key already present keeps its place. */
  function Assign(d: Renames, k: string, v: string): (r: Renames)
    ensures r.items == d.items[k := v]
  {
    Renames(if k in d.items then d.keys else d.keys + [k], d.items[k := v])
  }

  /** The state `apply_hashing` builds: the local folder, the rename map
      and the HASH changes recorded. */
  datatype Hashing = Hashing(local: Folder, renames: Renames, changes: seq<Change>)

  /** The files `apply_hashing` hashes: regular files not starting with `.`
      or `_` and, when a reference set is given, named in it. */
  predicate Hashable(name: string, local: Folder, referenced: Option<set<string>>) {
    name in local && !Text.StartsWith(name, ".") && !Text.StartsWith(name, "_")
    && (referenced.None? || name in referenced.value)
  }

  /** One file of the pass. When the hashed name is new the file is renamed;
      when a file of that name holds the same content the original is
      deleted; when it holds other content the file is left as it is. A
      renamed or deleted file maps both `media/old` and `old` to
      `media/new`. */
  function HashStep(s: Hashing, name: string, referenced: Option<set<string>>): (r: Hashing)
  {
    if !Hashable(name, s.local, referenced) then s
    else
      var digest := s.local[name];
      var newName := HashedFilename(name, digest);
      if newName == name then s
      else if newName in s.local && s.local[newName] != digest then s
      else
        var local := if newName in s.local then s.local - {name} else (s.local - {name})[newName := digest];
        var target := MediaPrefix + newName;
        var renames := Assign(Assign(s.renames, MediaPrefix + name, target), name, target);
        Hashing(local, renames, s.changes + [Change(Hash, StrId(name), name)])
  }

  function HashRun(entries: seq<string>, referenced: Option<set<string>>, local: Folder): (r: Hashing)
    decreases |entries|
  {
    if |entries| == 0 then Hashing(local, Renames([], map[]), [])
    else
      var n := |entries| - 1;
      HashStep(HashRun(entries[..n], referenced, local), entries[n], referenced)
  }

  /** A step neither loses nor invents content: the folder holds the same
      digests before and after. */
  lemma HashStepKeepsDigests(s: Hashing, name: string, referenced: Option<set<string>>)
    ensures HashStep(s, name, referenced).local.Values == s.local.Values
  {
    var r := HashStep(s, name, referenced);
    if r != s && Hashable(name, s.local, referenced) {
      var digest := s.local[name];
      var newName := HashedFilename(name, digest);
      assert newName != name;
      assert newName in r.local && r.local[newName] == digest;
      forall v | v in s.local.Values ensures v in r.local.Values {
        var k :| k in s.local && s.local[k] == v;
        if k == name || k == newName {
          assert r.local[newName] == v;
        } else {
          assert r.local[k] == v;
        }
      }
      forall v | v in r.local.Values ensures v in s.local.Values {
        var k :| k in r.local && r.local[k] == v;
        if k == newName {
          assert s.local[name] == v;
        } else {
          assert s.local[k] == v;
        }
      }
    }
  }

  /** The whole pass neither loses nor invents content. */
  lemma {:induction false} HashRunKeepsDigests(entries: seq<string>, referenced: Option<set<string>>, local: Folder)
    ensures HashRun(entries, referenced, local).local.Values == local.Values
    decreases |entries|
  {
    if |entries| > 0 {
      var n := |entries| - 1;
      HashRunKeepsDigests(entries[..n], referenced, local);
      HashStepKeepsDigests(HashRun(entries[..n], referenced, local), entries[n], referenced);
    }
  }

  /** The name a rename-map key was made from: `media/old` and `old` both
      come from `old`. */
  function OriginOf(key: string): string {
    if Text.StartsWith(key, MediaPrefix) then key[|MediaPrefix|..] else key
  }

  /** Files not yet seen still hold their first content. */
  ghost predicate UnseenKept(done: seq<string>, local: Folder, current: Folder) {
    forall n :: n in local && n !in done ==> n in current && current[n] == local[n]
  }

  /** Every rename-map key comes from a seen, hashable file and maps to
      `media/` plus the hashed name of that file's content. */
  ghost predicate RenamesFromSeen(done: seq<string>, referenced: Option<set<string>>, local: Folder, renames: map<string, string>) {
    forall k :: k in renames ==>
      OriginOf(k) in done && Hashable(OriginOf(k), local, referenced)
      && renames[k] == MediaPrefix + HashedFilename(OriginOf(k), local[OriginOf(k)])
  }

  /** What holds of the pass after it has seen `done`. */
  ghost predicate HashingInvariant(done: seq<string>, referenced: Option<set<string>>, local: Folder, s: Hashing) {
    UnseenKept(done, local, s.local) && RenamesFromSeen(done, referenced, local, s.renames.items)
  }

  lemma NoSlashNoPrefix(name: string)
    requires '/' !in name
    ensures !Text.StartsWith(name, MediaPrefix) && OriginOf(name) == name
    ensures OriginOf(MediaPrefix + name) == name
  {
    if |name| >= |MediaPrefix| {
      assert name[..|MediaPrefix|][5] == name[5];
    }
    assert (MediaPrefix + name)[|MediaPrefix|..] == name;
  }

  lemma UnseenAfterStep(done: seq<string>, name: string, referenced: Option<set<string>>, local: Folder, s: Hashing)
    requires UnseenKept(done, local, s.local)
    requires name in local && name !in done
    ensures UnseenKept(done + [name], local, HashStep(s, name, referenced).local)
  {
    var r := HashStep(s, name, referenced);
    forall n | n in local && n !in done + [name] ensures n in r.local && r.local[n] == local[n] {
      assert n !in done && n != name && n in s.local;
    }
  }

  lemma RenamesAfterStep(done: seq<string>, name: string, referenced: Option<set<string>>, local: Folder, s: Hashing)
    requires UnseenKept(done, local, s.local) && RenamesFromSeen(done, referenced, local, s.renames.items)
    requires name in local && name !in done && '/' !in name
    ensures RenamesFromSeen(done + [name], referenced, local, HashStep(s, name, referenced).renames.items)
  {
    var r := HashStep(s, name, referenced);
    var done' := done + [name];
    assert forall m :: m in done ==> m in done';
    var digest := local[name];
    assert s.local[name] == digest;
    var newName := HashedFilename(name, digest);
    var target := MediaPrefix + newName;
    if r.renames.items != s.renames.items {
      assert Hashable(name, local, referenced);
      assert r.renames.items == s.renames.items[MediaPrefix + name := target][name := target];
      NoSlashNoPrefix(name);
    }
  }

  lemma HashStepInvariant(done: seq<string>, name: string, referenced: Option<set<string>>, local: Folder, s: Hashing)
    requires HashingInvariant(done, referenced, local, s)
    requires name in local && name !in done && '/' !in name
    ensures HashingInvariant(done + [name], referenced, local, HashStep(s, name, referenced))
  {
    UnseenAfterStep(done, name, referenced, local, s);
    RenamesAfterStep(done, name, referenced, local, s);
  }

  /** Over a listing of distinct file names, each key of the rename map
      comes from a listed file that was hashable, and maps to `media/` plus
      the hashed name of that file's content. Files that were not hashable
      are therefore never named in the map. */
  lemma {:induction false} HashRunRenames(entries: seq<string>, referenced: Option<set<string>>, local: Folder)
    requires forall i, j :: 0 <= i < j < |entries| ==> entries[i] != entries[j]
    requires forall i :: 0 <= i < |entries| ==> entries[i] in local && '/' !in entries[i]
    ensures HashingInvariant(entries, referenced, local, HashRun(entries, referenced, local))
    decreases |entries|
  {
    if |entries| > 0 {
      var n := |entries| - 1;
      var init := entries[..n];
      HashRunRenames(init, referenced, local);
      assert entries[n] !in init;
      HashStepInvariant(init, entries[n], referenced, local, HashRun(init, referenced, local));
      assert init + [entries[n]] == entries;
    }
  }

  /** The last `/`-separated segment: `path.split("/")[-1]`. */
  function LastSegment(path: string): (r: string)
    ensures '/' !in r
  {
    match Text.LastIndexOf(path, '/')
    case Some(i) => path[i + 1..]
    case None => path
  }

  /** `{v.split("/")[-1]: k.split("/")[-1] for k, v in rename_map.items()}`
      over the keys in insertion order: a later key wins. */
  function InverseNames(keys: seq<string>, items: map<string, string>): map<string, string>
    decreases |keys|
  {
    if |keys| == 0 then map[]
    else
      var n := |keys| - 1;
      var inv := InverseNames(keys[..n], items);
      if keys[n] in items then inv[LastSegment(items[keys[n]]) := LastSegment(keys[n])] else inv
  }

  /** Every renamed file's new name is a key of the inverse map. */
  lemma {:induction false} InverseNamesCovers(keys: seq<string>, items: map<string, string>)
    requires forall i :: 0 <= i < |keys| ==> keys[i] in items
    ensures forall i :: 0 <= i < |keys| ==> LastSegment(items[keys[i]]) in InverseNames(keys, items)
    decreases |keys|
  {
    if |keys| > 0 {
      var n := |keys| - 1;
      var init := keys[..n];
      InverseNamesCovers(init, items);
      forall i | 0 <= i < n ensures LastSegment(items[keys[i]]) in InverseNames(keys, items) {
        assert keys[i] == init[i];
      }
    }
  }

  /** A key of the inverse map leads back to a rename-map key whose target
      it names. */
  lemma {:induction false} InverseNamesBack(keys: seq<string>, items: map<string, string>, v: string)
    requires forall i :: 0 <= i < |keys| ==> keys[i] in items
    requires v in InverseNames(keys, items)
    ensures exists i :: (0 <= i < |keys| && LastSegment(items[keys[i]]) == v
                         && InverseNames(keys, items)[v] == LastSegment(keys[i]))
    decreases |keys|
  {
    var n := |keys| - 1;
    var init := keys[..n];
    if v != LastSegment(items[keys[n]]) {
      InverseNamesBack(init, items, v);
      var i :| 0 <= i < |init| && LastSegment(items[init[i]]) == v
        && InverseNames(init, items)[v] == LastSegment(init[i]);
      assert keys[i] == init[i];
    } else {
      assert InverseNames(keys, items)[v] == LastSegment(keys[n]);
    }
  }

  /** Every key a rename map lists is mapped. */
  predicate Listed(d: Renames) {
    forall i :: 0 <= i < |d.keys| ==> d.keys[i] in d.items
  }

  lemma AssignListed(d: Renames, k: string, v: string)
    requires Listed(d)
    ensures Listed(Assign(d, k, v))
  {
  }

  lemma HashStepListed(s: Hashing, name: string, referenced: Option<set<string>>)
    requires Listed(s.renames)
    ensures Listed(HashStep(s, name, referenced).renames)
  {
    if HashStep(s, name, referenced) != s {
      var newName := HashedFilename(name, s.local[name]);
      AssignListed(s.renames, MediaPrefix + name, MediaPrefix + newName);
      AssignListed(Assign(s.renames, MediaPrefix + name, MediaPrefix + newName), name, MediaPrefix + newName);
    }
  }

  /** Every key the rename map lists is mapped, so the inverse covers every
      renamed file. */
  lemma {:induction false} HashRunKeysListed(entries: seq<string>, referenced: Option<set<string>>, local: Folder)
    ensures Listed(HashRun(entries, referenced, local).renames)
    decreases |entries|
  {
    if |entries| > 0 {
      var n := |entries| - 1;
      HashRunKeysListed(entries[..n], referenced, local);
      HashStepListed(HashRun(entries[..n], referenced, local), entries[n], referenced);
    }
  }

  /** The inverse of a rename map, as `sync_to_anki` builds it. */
  function InverseOf(renames: Renames): map<string, string> {
    InverseNames(renames.keys, renames.items)
  }

  // ---------------------------------------------------------------- copying

  /** Both folders and the changes recorded while copying. */
  datatype Transfer = Transfer(local: Folder, anki: Folder, changes: seq<Change>)

  /** `sync_to_anki` keeps a local file that is referenced or starts with
      `_`; any other file is deleted. */
  predicate Kept(name: string, referenced: set<string>) {
    name in referenced || Text.StartsWith(name, "_")
  }

  /** `inv_rename_map.get(name, name)`. */
  function OriginalName(inverse: map<string, string>, name: string): string {
    if name in inverse then inverse[name] else name
  }

  /** One file of the `sync_to_anki` loop: dot-files and non-files are
      skipped, a kept file is copied to Anki only when Anki lacks it, and
      any other file is deleted. */
  function ToAnkiStep(t: Transfer, name: string, referenced: set<string>, inverse: map<string, string>): Transfer {
    if name !in t.local || Text.StartsWith(name, ".") then t
    else if Kept(name, referenced) then
      if name in t.anki then t
      else Transfer(t.local, t.anki[name := t.local[name]], t.changes + [Change(Sync, StrId(OriginalName(inverse, name)), name)])
    else Transfer(t.local - {name}, t.anki, t.changes + [Change(Delete, StrId(name), name)])
  }

  function ToAnkiRun(entries: seq<string>, referenced: set<string>, inverse: map<string, string>,
                     local: Folder, anki: Folder): Transfer
    decreases |entries|
  {
    if |entries| == 0 then Transfer(local, anki, [])
    else
      var n := |entries| - 1;
      ToAnkiStep(ToAnkiRun(entries[..n], referenced, inverse, local, anki), entries[n], referenced, inverse)
  }

  /** A listed local file that `sync_to_anki` deletes. */
  predicate Dropped(name: string, entries: seq<string>, referenced: set<string>, local: Folder) {
    name in entries && name in local && !Text.StartsWith(name, ".") && !Kept(name, referenced)
  }

  /** A listed local file that `sync_to_anki` copies into Anki. */
  predicate Copied(name: string, entries: seq<string>, referenced: set<string>, local: Folder, anki: Folder) {
    name in entries && name in local && !Text.StartsWith(name, ".") && Kept(name, referenced) && name !in anki
  }

  /** The local folder loses exactly the listed, unreferenced files that
      start with neither `_` nor `.`; the others keep their content. */
  lemma {:induction false} ToAnkiRunLocal(entries: seq<string>, referenced: set<string>, inverse: map<string, string>,
                                          local: Folder, anki: Folder)
    ensures var t := ToAnkiRun(entries, referenced, inverse, local, anki);
      (forall n :: n in t.local <==> n in local && !Dropped(n, entries, referenced, local))
      && (forall n :: n in t.local ==> t.local[n] == local[n])
    decreases |entries|
  {
    if |entries| > 0 {
      var n := |entries| - 1;
      ToAnkiRunLocal(entries[..n], referenced, inverse, local, anki);
      assert forall m :: m in entries <==> m in entries[..n] || m == entries[n];
    }
  }

  lemma ToAnkiStepAnki(t: Transfer, name: string, referenced: set<string>, inverse: map<string, string>)
    ensures ToAnkiStep(t, name, referenced, inverse).anki ==
      if name in t.local && !Text.StartsWith(name, ".") && Kept(name, referenced) && name !in t.anki
      then t.anki[name := t.local[name]] else t.anki
  {
  }

  /** Over a listing of distinct names, Anki gains exactly the kept files it
      lacked, with their local content, and no file Anki already had is
      overwritten. */
  lemma {:induction false} ToAnkiRunAnki(entries: seq<string>, referenced: set<string>, inverse: map<string, string>,
                                         local: Folder, anki: Folder)
    requires forall i, j :: 0 <= i < j < |entries| ==> entries[i] != entries[j]
    ensures var t := ToAnkiRun(entries, referenced, inverse, local, anki);
      (forall n :: n in t.anki <==> n in anki || Copied(n, entries, referenced, local, anki))
      && (forall n :: n in anki ==> t.anki[n] == anki[n])
      && (forall n :: Copied(n, entries, referenced, local, anki) ==> t.anki[n] == local[n])
    decreases |entries|
  {
    if |entries| > 0 {
      var n := |entries| - 1;
      var init := entries[..n];
      var name := entries[n];
      ToAnkiRunAnki(init, referenced, inverse, local, anki);
      ToAnkiRunLocal(init, referenced, inverse, local, anki);
      var t0 := ToAnkiRun(init, referenced, inverse, local, anki);
      assert ToAnkiRun(entries, referenced, inverse, local, anki) == ToAnkiStep(t0, name, referenced, inverse);
      ToAnkiStepAnki(t0, name, referenced, inverse);
      assert name !in init;
      assert !Dropped(name, init, referenced, local) && !Copied(name, init, referenced, local, anki);
      assert name in t0.local <==> name in local;
      assert name in t0.anki <==> name in anki;
      assert forall m :: m != name ==> (Copied(m, entries, referenced, local, anki) <==> Copied(m, init, referenced, local, anki));
      assert Copied(name, entries, referenced, local, anki) <==>
        name in local && !Text.StartsWith(name, ".") && Kept(name, referenced) && name !in anki;
    }
  }

  /** One name of the `sync_from_anki` loop: a name Anki lacks, or one the
      local folder already has, is skipped; otherwise the file is copied. */
  function FromAnkiStep(t: Transfer, name: string): Transfer {
    if name !in t.anki || name in t.local then Transfer(t.local, t.anki, t.changes + [Change(Skip, StrId(name), name)])
    else Transfer(t.local[name := t.anki[name]], t.anki, t.changes + [Change(Sync, StrId(name), name)])
  }

  function FromAnkiRun(names: seq<string>, local: Folder, anki: Folder): Transfer
    decreases |names|
  {
    if |names| == 0 then Transfer(local, anki, [])
    else
      var n := |names| - 1;
      FromAnkiStep(FromAnkiRun(names[..n], local, anki), names[n])
  }

  /** Over distinct referenced names: one change per name, naming it, SYNC
      exactly for a name Anki has and the local folder lacked, SKIP
      otherwise. */
  lemma {:induction false} FromAnkiRunChanges(names: seq<string>, local: Folder, anki: Folder)
    requires forall i, j :: 0 <= i < j < |names| ==> names[i] != names[j]
    ensures var t := FromAnkiRun(names, local, anki);
      |t.changes| == |names|
      && forall i :: 0 <= i < |names| ==>
           t.changes[i].entityId == StrId(names[i])
           && (t.changes[i].changeType == Sync <==> names[i] in anki && names[i] !in local)
           && (t.changes[i].changeType != Sync ==> t.changes[i].changeType == Skip)
    decreases |names|
  {
    if |names| > 0 {
      var n := |names| - 1;
      var init := names[..n];
      var name := names[n];
      FromAnkiRunChanges(init, local, anki);
      FromAnkiRunFolders(init, local, anki);
      var t0 := FromAnkiRun(init, local, anki);
      assert FromAnkiRun(names, local, anki) == FromAnkiStep(t0, name);
      FromAnkiStepChange(t0, name);
      assert name !in init;
      assert name in t0.local <==> name in local;
      assert forall i :: 0 <= i < n ==> names[i] == init[i];
    }
  }

  /** One name adds one change, SYNC exactly when Anki has the file and
      the local folder lacks it. */
  lemma FromAnkiStepChange(t: Transfer, name: string)
    ensures FromAnkiStep(t, name).changes ==
      t.changes + [Change(if name in t.anki && name !in t.local then Sync else Skip, StrId(name), name)]
  {
  }

  /** Over distinct referenced names: the local folder gains exactly the
      named files Anki has, with Anki's content; no local file is
      overwritten and Anki's folder is untouched. */
  lemma {:induction false} FromAnkiRunFolders(names: seq<string>, local: Folder, anki: Folder)
    ensures var t := FromAnkiRun(names, local, anki);
      t.anki == anki
      && (forall n :: n in t.local <==> n in local || (n in names && n in anki))
      && (forall n :: n in local ==> t.local[n] == local[n])
      && (forall n :: n in t.local && n !in local ==> t.local[n] == anki[n])
    decreases |names|
  {
    if |names| > 0 {
      var n := |names| - 1;
      var init := names[..n];
      FromAnkiRunFolders(init, local, anki);
      assert forall m :: m in names <==> m in init || m == names[n];
    }
  }

  // ---------------------------------------------------------------- the folders

  /** The local `media/` folder and Anki's media folder. */
  class MediaFolders {
    var local: Folder
    var anki: Folder

    constructor (local: Folder, anki: Folder)
      ensures this.local == local && this.anki == anki
    {
      this.local := local;
      this.anki := anki;
    }

    /** `apply_hashing` over the listing `entries` of `media/`; an absent
        folder is a listing with no entries. */
    method ApplyHashing(entries: seq<string>, referenced: Option<set<string>>)
      returns (renames: Renames, changes: seq<Change>)
      modifies this
      ensures Hashing(local, renames, changes) == HashRun(entries, referenced, old(local))
      ensures anki == old(anki)
    {
      renames := Renames([], map[]);
      changes := [];
      var folder := local;
      var i := 0;
      while i < |entries|
        invariant 0 <= i <= |entries|
        invariant Hashing(folder, renames, changes) == HashRun(entries[..i], referenced, local)
      {
        var name := entries[i];
        assert entries[..i + 1][..i] == entries[..i];
        if Hashable(name, folder, referenced) {
          var digest := folder[name];
          var newName := HashedFilename(name, digest);
          if newName != name && !(newName in folder && folder[newName] != digest) {
            if newName in folder {
              folder := folder - {name};
            } else {
              folder := (folder - {name})[newName := digest];
            }
            renames := Assign(renames, MediaPrefix + name, MediaPrefix + newName);
            renames := Assign(renames, name, MediaPrefix + newName);
            changes := changes + [Change(Hash, StrId(name), name)];
          }
        }
        i := i + 1;
      }
      assert entries[..i] == entries;
      local := folder;
    }

    /** `sync_to_anki`. A local folder that is Anki's own folder is refused.
        Otherwise the referenced files are hashed, the renames inverted, and
        the listing `entries` taken after hashing is copied or deleted by
        `referencedAfter`, the references read again after the rewrite. */
    method SyncToAnki(aliased: bool, mediaExists: bool, hashEntries: seq<string>, referencedBefore: set<string>,
                      entries: seq<string>, referencedAfter: set<string>)
      returns (r: Result<seq<Change>>)
      modifies this
      ensures aliased <==> r.Err?
      ensures aliased || !mediaExists ==> local == old(local) && anki == old(anki)
      ensures !aliased && !mediaExists ==> r == Ok([])
      ensures !aliased && mediaExists ==>
        var h := HashRun(hashEntries, Some(referencedBefore), old(local));
        var t := ToAnkiRun(entries, referencedAfter, InverseOf(h.renames), h.local, old(anki));
        r == Ok(h.changes + t.changes) && local == t.local && anki == t.anki
    {
      if aliased {
        return Err("Local media directory aliases Anki media directory. Syncing would rename all files in Anki. Aborting.");
      }
      if !mediaExists {
        return Ok([]);
      }
      var renames, hashChanges := ApplyHashing(hashEntries, Some(referencedBefore));
      var inverse := InverseOf(renames);
      var changes := [];
      var folder, media := local, anki;
      var i := 0;
      while i < |entries|
        invariant 0 <= i <= |entries|
        invariant Transfer(folder, media, changes) == ToAnkiRun(entries[..i], referencedAfter, inverse, local, anki)
      {
        var name := entries[i];
        assert entries[..i + 1][..i] == entries[..i];
        if name in folder && !Text.StartsWith(name, ".") {
          if Kept(name, referencedAfter) {
            if name !in media {
              media := media[name := folder[name]];
              changes := changes + [Change(Sync, StrId(OriginalName(inverse, name)), name)];
            }
          } else {
            folder := folder - {name};
            changes := changes + [Change(Delete, StrId(name), name)];
          }
        }
        i := i + 1;
      }
      assert entries[..i] == entries;
      local, anki := folder, media;
      r := Ok(hashChanges + changes);
    }

    /** `sync_from_anki` over the referenced names in iteration order. */
    method SyncFromAnki(names: seq<string>) returns (changes: seq<Change>)
      modifies this
      ensures Transfer(local, anki, changes) == FromAnkiRun(names, old(local), old(anki))
    {
      changes := [];
      var folder := local;
      var i := 0;
      while i < |names|
        invariant 0 <= i <= |names|
        invariant Transfer(folder, anki, changes) == FromAnkiRun(names[..i], local, anki)
      {
        var name := names[i];
        assert names[..i + 1][..i] == names[..i];
        if name !in anki || name in folder {
          changes := changes + [Change(Skip, StrId(name), name)];
        } else {
          folder := folder[name := anki[name]];
          changes := changes + [Change(Sync, StrId(name), name)];
        }
        i := i + 1;
      }
      assert names[..i] == names;
      local := folder;
    }
  }
}
