/** A SQLite table `(key TEXT PRIMARY KEY, id INTEGER NOT NULL)` held in
    memory, as both identity stores use it: the primary key makes it a map from
    key to id, and the stores' write discipline keeps it injective, so it can be
    read in both directions. */
module Tables {
  import opened Wrappers

  type Table = map<string, int>

  /** No id is held by two keys: the table is a bijection between its keys
      and its ids. */
  ghost predicate Injective(t: Table) {
    forall a, b :: a in t && b in t && t[a] == t[b] ==> a == b
  }

  /** `DELETE FROM t WHERE id = ?`. */
  function WithoutId(t: Table, id: int): (r: Table)
    ensures forall k :: k in r <==> k in t && t[k] != id
    ensures forall k :: k in r ==> r[k] == t[k]
  {
    map k | k in t && t[k] != id :: t[k]
  }

  /** `DELETE FROM t WHERE id IN (...)`. */
  function WithoutIds(t: Table, ids: set<int>): (r: Table)
    ensures forall k :: k in r <==> k in t && t[k] !in ids
    ensures forall k :: k in r ==> r[k] == t[k]
  {
    map k | k in t && t[k] !in ids :: t[k]
  }

  /** `DELETE FROM t WHERE key IN (...)`. */
  function WithoutKeys(t: Table, keys: set<string>): (r: Table)
    ensures forall k :: k in r <==> k in t && k !in keys
    ensures forall k :: k in r ==> r[k] == t[k]
  {
    map k | k in t && k !in keys :: t[k]
  }

  /** `DELETE FROM t WHERE id = ?` followed by
      `INSERT OR REPLACE INTO t (key, id) VALUES (?, ?)`: the write every
      setter of both stores performs. */
  function Put(t: Table, key: string, id: int): (r: Table)
    ensures key in r && r[key] == id
    ensures forall k :: k != key ==> (k in r <==> k in t && t[k] != id)
    ensures forall k :: k in r && k != key ==> r[k] == t[k]
  {
    WithoutId(t, id)[key := id]
  }

  /** `SELECT id FROM t WHERE key = ?`. */
  function IdOf(t: Table, key: string): (r: Option<int>)
    ensures r.Some? <==> key in t
    ensures r.Some? ==> t[key] == r.value
  {
    if key in t then Some(t[key]) else None
  }

  /** The key of `id`, when the table is a bijection. */
  ghost function KeyOf(t: Table, id: int): (r: Option<string>)
    requires Injective(t)
    ensures r.Some? <==> id in t.Values
    ensures r.Some? ==> r.value in t && t[r.value] == id
  {
    if id in t.Values then
      var k :| k in t && t[k] == id;
      Some(k)
    else None
  }

  lemma KeyOfUnique(t: Table, k: string)
    requires Injective(t) && k in t
    ensures KeyOf(t, t[k]) == Some(k)
  {
  }

  /** Deleting rows never breaks the bijection. */
  lemma DeleteInjective(t: Table, ids: set<int>, keys: set<string>)
    requires Injective(t)
    ensures Injective(WithoutIds(t, ids)) && Injective(WithoutKeys(t, keys))
  {
  }

  /** `Put` keeps the table a bijection, and afterwards `key` and `id` look
      each other up. */
  lemma PutInjective(t: Table, key: string, id: int)
    requires Injective(t)
    ensures Injective(Put(t, key, id))
    ensures KeyOf(Put(t, key, id), id) == Some(key)
    ensures IdOf(Put(t, key, id), key) == Some(id)
  {
    var r := Put(t, key, id);
    forall a, b | a in r && b in r && r[a] == r[b] ensures a == b {
      if a != key && b != key {
        assert t[a] == t[b];
      }
    }
    KeyOfUnique(r, key);
  }

  /** Re-pointing a key at a new id drops the old id's reverse lookup;
      giving an existing id to a new key drops the old key. */
  lemma PutReplaces(t: Table, key: string, id: int)
    requires Injective(t)
    ensures key in t && t[key] != id ==> KeyOf(Put(t, key, id), t[key]).None?
    ensures forall k :: k in t && t[k] == id && k != key ==> IdOf(Put(t, key, id), k).None?
  {
    PutInjective(t, key, id);
    var r := Put(t, key, id);
    if key in t && t[key] != id {
      forall k | k in r ensures r[k] != t[key] {
        if k != key {
          assert r[k] == t[k];
        }
      }
    }
  }
}
