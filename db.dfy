/** `SQLiteDbAdapter` (ankiops/db.py): the SQLite store that maps note keys
    to Anki note ids, deck names to deck ids, and note keys to their last
    synced fingerprints, with nested transactions.

    The four tables are held as maps in a `Store` value. Every write of the
    adapter is a function on `Store` (the specification), and the class
    methods, which follow the adapter's loops over rows and chunks, are proved
    to compute it. */
module Db {
  import opened Wrappers
  import opened Tables
  import opened Chunking
  import Text

  /** `_chunked`'s default size. */
  const ChunkSize: nat := 500

  type Row = (string, int)

  datatype Fingerprint = Fingerprint(mdHash: string, ankiHash: string)

  type FpRow = (string, Fingerprint)

  /** The tables `notes(key, id)`, `decks(name, id)`, `config(key, value)` and
      `note_fingerprints(key, md_hash, anki_hash)`. */
  datatype Store = Store(
    notes: Table,
    decks: Table,
    config: map<string, string>,
    fingerprints: map<string, Fingerprint>)

  /** What the adapter keeps true of the tables: both id columns are unique. */
  ghost predicate StoreValid(s: Store) {
    Injective(s.notes) && Injective(s.decks)
  }

  datatype TxEvent = Begin | Commit | Rollback

  // ------------------------------------------------------------ row helpers

  function Keys<V>(rows: seq<(string, V)>): set<string> {
    set i | 0 <= i < |rows| :: rows[i].0
  }

  function Ids(rows: seq<Row>): set<int> {
    set i | 0 <= i < |rows| :: rows[i].1
  }

  /** No two rows share a key and no two rows share an id. */
  ghost predicate DistinctRows(rows: seq<Row>) {
    forall i, j :: 0 <= i < j < |rows| ==> rows[i].0 != rows[j].0 && rows[i].1 != rows[j].1
  }

  function Reversed<T>(s: seq<T>): (r: seq<T>)
    ensures |r| == |s| && forall i :: 0 <= i < |s| ==> r[i] == s[|s| - 1 - i]
    decreases |s|
  {
    if |s| == 0 then [] else Reversed(s[1..]) + [s[0]]
  }

  // ------------------------------------------------------------ set_notes_bulk, as written

  /** The rows `set_notes_bulk` keeps: scanning from the end, a row is kept
      unless a row already kept has its key or its id. */
  function LastWins(rows: seq<Row>): (kept: seq<Row>)
    decreases |rows|
  {
    if |rows| == 0 then []
    else
      var tail := LastWins(rows[1..]);
      if rows[0].0 in Keys(tail) || rows[0].1 in Ids(tail) then tail else [rows[0]] + tail
  }

  /** `INSERT OR REPLACE INTO notes (key, id)` for each row in turn. */
  function InsertAll(t: Table, rows: seq<Row>): Table
    decreases |rows|
  {
    if |rows| == 0 then t else InsertAll(t[rows[0].0 := rows[0].1], rows[1..])
  }

  /** The notes table after `set_notes_bulk(rows)`: the kept rows' ids are
      deleted, then the kept rows are inserted. */
  function SetNotesBulkSpec(t: Table, rows: seq<Row>): Table {
    var kept := LastWins(rows);
    InsertAll(WithoutIds(t, Ids(kept)), kept)
  }

  /** The kept rows are pairwise distinct in key and in id, every kept row is
      a row of the input, and the last input row is always kept. */
  lemma {:induction false} LastWinsShape(rows: seq<Row>)
    ensures DistinctRows(LastWins(rows))
    ensures forall r :: r in LastWins(rows) ==> r in rows
    ensures |rows| > 0 ==> rows[|rows| - 1] in LastWins(rows)
    decreases |rows|
  {
    if |rows| > 0 {
      var tail := LastWins(rows[1..]);
      LastWinsShape(rows[1..]);
      if !(rows[0].0 in Keys(tail) || rows[0].1 in Ids(tail)) {
        var kept := [rows[0]] + tail;
        forall i, j | 0 <= i < j < |kept| ensures kept[i].0 != kept[j].0 && kept[i].1 != kept[j].1 {
          if i == 0 {
            assert kept[j] == tail[j - 1];
          } else {
            assert kept[i] == tail[i - 1] && kept[j] == tail[j - 1];
          }
        }
      }
      if |rows| > 1 {
        assert rows[1..][|rows| - 2] == rows[|rows| - 1];
      }
    }
  }

  /** A row of a list has its key among the list's keys and its id among
      the list's ids. */
  lemma PairIn(rows: seq<Row>, x: Row)
    ensures x in rows ==> x.0 in Keys(rows) && x.1 in Ids(rows)
  {
    if x in rows {
      var i :| 0 <= i < |rows| && rows[i] == x;
      assert rows[i].0 in Keys(rows) && rows[i].1 in Ids(rows);
    }
  }

  /** In rows with distinct keys and ids, a key or an id picks out one row. */
  lemma DistinctPairs(rows: seq<Row>, x: Row, y: Row)
    requires DistinctRows(rows)
    ensures x in rows && y in rows && (x.0 == y.0 || x.1 == y.1) ==> x == y
  {
    if x in rows && y in rows {
      var i :| 0 <= i < |rows| && rows[i] == x;
      var j :| 0 <= j < |rows| && rows[j] == y;
      assert i < j ==> rows[i].0 != rows[j].0 && rows[i].1 != rows[j].1;
      assert j < i ==> rows[j].0 != rows[i].0 && rows[j].1 != rows[i].1;
    }
  }

  lemma DistinctTail(rows: seq<Row>)
    requires |rows| > 0 && DistinctRows(rows)
    ensures DistinctRows(rows[1..])
    ensures forall x :: x in rows[1..] ==> x.0 != rows[0].0 && x.1 != rows[0].1
  {
    var rest := rows[1..];
    forall i, j | 0 <= i < j < |rest| ensures rest[i].0 != rest[j].0 && rest[i].1 != rest[j].1 {
      assert rest[i] == rows[i + 1] && rest[j] == rows[j + 1];
    }
    forall x | x in rest ensures x.0 != rows[0].0 && x.1 != rows[0].1 {
      var i :| 0 <= i < |rest| && rest[i] == x;
      assert rows[i + 1] == x;
    }
  }

  /** Inserting rows with distinct keys and ids: `k` holds `v` exactly when
      `(k, v)` is one of the rows, or no row names `k` and it held `v`. */
  lemma {:induction false} InsertDistinctAt(t: Table, rows: seq<Row>, k: string, v: int)
    requires DistinctRows(rows)
    ensures (k in InsertAll(t, rows) && InsertAll(t, rows)[k] == v) <==>
      ((k, v) in rows || (k !in Keys(rows) && k in t && t[k] == v))
    decreases |rows|
  {
    if |rows| > 0 {
      var rest := rows[1..];
      DistinctTail(rows);
      InsertDistinctAt(t[rows[0].0 := rows[0].1], rest, k, v);
      ConsKeys(rows, 0);
      assert rows[0..] == rows && rows == [rows[0]] + rest;
      PairIn(rest, (k, v));
    }
  }

  /** `set_notes_bulk` keeps the notes table a bijection. */
  lemma SetNotesBulkInjective(t: Table, rows: seq<Row>)
    requires Injective(t)
    ensures Injective(SetNotesBulkSpec(t, rows))
  {
    var kept := LastWins(rows);
    LastWinsShape(rows);
    var base := WithoutIds(t, Ids(kept));
    var r := SetNotesBulkSpec(t, rows);
    forall a, b | a in r && b in r && r[a] == r[b] ensures a == b {
      InsertDistinctAt(base, kept, a, r[a]);
      InsertDistinctAt(base, kept, b, r[b]);
      PairIn(kept, (a, r[a]));
      PairIn(kept, (b, r[b]));
      DistinctPairs(kept, (a, r[a]), (b, r[b]));
    }
  }

  /** On a single row the bulk write is `set_note`'s: the id is taken from
      whichever key held it, and the key is bound to it. */
  lemma SingleRowIsPut(t: Table, key: string, id: int)
    ensures SetNotesBulkSpec(t, [(key, id)]) == Put(t, key, id)
  {
    var rows := [(key, id)];
    assert rows[1..] == [];
    assert LastWins(rows) == rows;
    assert Ids(rows) == {id} by {
      assert rows[0].1 == id;
    }
    assert WithoutIds(t, {id}) == WithoutId(t, id);
    assert InsertAll(WithoutId(t, id), rows) == InsertAll(WithoutId(t, id)[key := id], []);
  }

  // ------------------------------------------------------------ set_note semantics

  /** `set_note` applied to each row in turn: the semantics the docstring of
      `set_notes_bulk` promises. */
  function PutAll(t: Table, rows: seq<Row>): Table
    decreases |rows|
  {
    if |rows| == 0 then t else Put(PutAll(t, rows[..|rows| - 1]), rows[|rows| - 1].0, rows[|rows| - 1].1)
  }

  /** Row `j` is not overwritten by a later row: no later row has its key or
      its id. */
  ghost predicate Survives(rows: seq<Row>, j: int)
    requires 0 <= j < |rows|
  {
    forall i :: j < i < |rows| ==> rows[i].0 != rows[j].0 && rows[i].1 != rows[j].1
  }

  /** `k` holds `v` after `set_note` on each row in turn: a surviving row
      says so, or `k` was never written and its old id `v` never reassigned. */
  ghost predicate Holds(t: Table, rows: seq<Row>, k: string, v: int) {
    (exists j :: 0 <= j < |rows| && rows[j] == (k, v) && Survives(rows, j))
    || (k !in Keys(rows) && k in t && t[k] == v && v !in Ids(rows))
  }

  /** Appending a row: an earlier row survives exactly when it survived
      before and does not clash with the new last row. */
  lemma SurvivesAppend(rows: seq<Row>, j: int)
    requires 0 <= j < |rows| - 1
    ensures Survives(rows, j) <==>
      (Survives(rows[..|rows| - 1], j) && rows[|rows| - 1].0 != rows[j].0 && rows[|rows| - 1].1 != rows[j].1)
  {
    var front := rows[..|rows| - 1];
    if Survives(front, j) && rows[|rows| - 1].0 != rows[j].0 && rows[|rows| - 1].1 != rows[j].1 {
      forall i | j < i < |rows| ensures rows[i].0 != rows[j].0 && rows[i].1 != rows[j].1 {
        if i < |rows| - 1 { assert rows[i] == front[i]; }
      }
    }
    if Survives(rows, j) {
      forall i | j < i < |front| ensures front[i].0 != front[j].0 && front[i].1 != front[j].1 {
        assert rows[i] == front[i];
      }
    }
  }

  /** `Holds` after one more row: the new row's binding, or an older binding
      that clashes with it neither in key nor in id. */
  lemma HoldsAppend(t: Table, rows: seq<Row>, k: string, v: int)
    requires |rows| > 0
    ensures var n := |rows| - 1;
      Holds(t, rows, k, v) <==>
        (k == rows[n].0 && v == rows[n].1) || (k != rows[n].0 && v != rows[n].1 && Holds(t, rows[..n], k, v))
  {
    var n := |rows| - 1;
    var front := rows[..n];
    var last := rows[n];
    assert rows == front + [last];
    AppendKeys(front, last);
    AppendIds(front, last);
    assert Survives(rows, n);
    if exists j :: 0 <= j < |rows| && rows[j] == (k, v) && Survives(rows, j) {
      var j :| 0 <= j < |rows| && rows[j] == (k, v) && Survives(rows, j);
      if j < n {
        SurvivesAppend(rows, j);
        assert front[j] == rows[j];
      }
    }
    if k != last.0 && v != last.1 && exists j :: 0 <= j < n && front[j] == (k, v) && Survives(front, j) {
      var j :| 0 <= j < n && front[j] == (k, v) && Survives(front, j);
      SurvivesAppend(rows, j);
    }
  }

  /** After `set_note` on each row in turn, `k` holds `v` exactly when a
      surviving row says so, or `k` was never written and its old id `v` was
      never reassigned. */
  lemma {:induction false} PutAllAt(t: Table, rows: seq<Row>, k: string, v: int)
    ensures (k in PutAll(t, rows) && PutAll(t, rows)[k] == v) <==> Holds(t, rows, k, v)
    decreases |rows|
  {
    if |rows| > 0 {
      var n := |rows| - 1;
      PutAllAt(t, rows[..n], k, v);
      HoldsAppend(t, rows, k, v);
    }
  }

  /** `PutAll` keeps the bijection. */
  lemma {:induction false} PutAllInjective(t: Table, rows: seq<Row>)
    requires Injective(t)
    ensures Injective(PutAll(t, rows))
    decreases |rows|
  {
    if |rows| > 0 {
      var n := |rows| - 1;
      PutAllInjective(t, rows[..n]);
      PutInjective(PutAll(t, rows[..n]), rows[n].0, rows[n].1);
    }
  }

  /** Where the docstring's promise breaks: on an empty table, the rows
      `("a", 1), ("b", 1), ("b", 2)` leave `a -> 1` behind in the bulk write,
      while `set_note` on each row in turn leaves only `b -> 2`. */
  lemma SetNotesBulkNotSequential()
    ensures SetNotesBulkSpec(map[], [("a", 1), ("b", 1), ("b", 2)]) == map["a" := 1, "b" := 2]
    ensures PutAll(map[], [("a", 1), ("b", 1), ("b", 2)]) == map["b" := 2]
  {
    var rows: seq<Row> := [("a", 1), ("b", 1), ("b", 2)];
    assert rows[1..][1..] == [("b", 2)];
    assert LastWins([("b", 2)]) == [("b", 2)];
    assert LastWins(rows[1..]) == [("b", 2)];
    assert LastWins(rows) == [("a", 1), ("b", 2)];
    var kept := LastWins(rows);
    assert 1 in Ids(kept) by { assert kept[0].1 == 1; }
    assert 2 in Ids(kept) by { assert kept[1].1 == 2; }
    assert Ids(kept) == {1, 2};
    assert WithoutIds(map[], {1, 2}) == map[];
    assert InsertAll(map[], kept) == map["a" := 1, "b" := 2] by {
      assert kept[1..] == [("b", 2)];
      assert kept[1..][1..] == [];
    }
    assert rows[..2] == [("a", 1), ("b", 1)];
    assert rows[..2][..1] == [("a", 1)];
    assert rows[..2][..1][..0] == [];
    assert PutAll(map[], [("a", 1)]) == map["a" := 1];
    assert PutAll(map[], rows[..2]) == map["b" := 1];
  }

  // ------------------------------------------------------------ set_notes_bulk, corrected

  /** The rows a corrected bulk write keeps: those no later row overwrites. */
  function Survivors(rows: seq<Row>): (kept: seq<Row>)
    decreases |rows|
  {
    if |rows| == 0 then []
    else
      var tail := Survivors(rows[1..]);
      if rows[0].0 in Keys(rows[1..]) || rows[0].1 in Ids(rows[1..]) then tail else [rows[0]] + tail
  }

  /** A bulk write with `set_note` semantics: every written key and every
      written id is deleted, then the surviving rows are inserted. */
  function SetNotesBulkSequentialSpec(t: Table, rows: seq<Row>): Table {
    InsertAll(WithoutIds(WithoutKeys(t, Keys(rows)), Ids(rows)), Survivors(rows))
  }

  /** Survival in `rows` against survival in `rows[1..]`: the first row
      survives when no later row clashes with it, and every later row
      survives in both or in neither. */
  lemma SurvivesCons(rows: seq<Row>)
    requires |rows| > 0
    ensures Survives(rows, 0) <==> !(rows[0].0 in Keys(rows[1..]) || rows[0].1 in Ids(rows[1..]))
    ensures forall j :: 0 < j < |rows| ==> rows[j] == rows[1..][j - 1] && (Survives(rows, j) <==> Survives(rows[1..], j - 1))
  {
    var rest := rows[1..];
    forall i | 0 < i < |rows| ensures rows[i] == rest[i - 1] {
    }
    forall x | x in rest ensures x in rows {
    }
    PairIn(rest, rows[0]);
    if rows[0].0 in Keys(rest) {
      var i :| 0 <= i < |rest| && rest[i].0 == rows[0].0;
      assert rows[i + 1] == rest[i];
    }
    if rows[0].1 in Ids(rest) {
      var i :| 0 <= i < |rest| && rest[i].1 == rows[0].1;
      assert rows[i + 1] == rest[i];
    }
    forall i | 0 < i < |rows| ensures rows[i].0 in Keys(rest) && rows[i].1 in Ids(rest) {
      assert rest[i - 1] == rows[i];
    }
  }

  /** The survivors are input rows with distinct keys and ids. */
  lemma {:induction false} SurvivorsShape(rows: seq<Row>)
    ensures forall x :: x in Survivors(rows) ==> x in rows
    ensures DistinctRows(Survivors(rows))
    decreases |rows|
  {
    if |rows| > 0 {
      var rest := rows[1..];
      SurvivorsShape(rest);
      var tail := Survivors(rest);
      if !(rows[0].0 in Keys(rest) || rows[0].1 in Ids(rest)) {
        forall x | x in tail ensures x.0 != rows[0].0 && x.1 != rows[0].1 {
          PairIn(rest, x);
        }
        var kept := [rows[0]] + tail;
        forall a, b | 0 <= a < b < |kept| ensures kept[a].0 != kept[b].0 && kept[a].1 != kept[b].1 {
          assert kept[b] == tail[b - 1] && kept[b] in tail;
          if a > 0 { assert kept[a] == tail[a - 1]; }
        }
      }
    }
  }

  /** A row of the input survives exactly when no later row overwrites it. */
  lemma {:induction false} SurvivorsAt(rows: seq<Row>, r: Row)
    ensures r in Survivors(rows) <==> exists j :: 0 <= j < |rows| && rows[j] == r && Survives(rows, j)
    decreases |rows|
  {
    if |rows| > 0 {
      var rest := rows[1..];
      SurvivorsAt(rest, r);
      SurvivesCons(rows);
      if exists j :: 0 <= j < |rows| && rows[j] == r && Survives(rows, j) {
        var j :| 0 <= j < |rows| && rows[j] == r && Survives(rows, j);
        if j > 0 {
          assert rest[j - 1] == r && Survives(rest, j - 1);
        }
      }
      if exists j :: 0 <= j < |rest| && rest[j] == r && Survives(rest, j) {
        var j :| 0 <= j < |rest| && rest[j] == r && Survives(rest, j);
        assert rows[j + 1] == r && Survives(rows, j + 1);
      }
    }
  }

  /** Keys of a sub-list are keys of the list. */
  lemma SubKeys(a: seq<Row>, b: seq<Row>)
    requires forall x :: x in a ==> x in b
    ensures Keys(a) <= Keys(b)
  {
    forall k | k in Keys(a) ensures k in Keys(b) {
      var i :| 0 <= i < |a| && a[i].0 == k;
      PairIn(b, a[i]);
    }
  }

  /** Both sides of `SequentialSpecIsPutAll`, at one key and one id. */
  lemma SequentialAt(t: Table, rows: seq<Row>, k: string, v: int)
    ensures (k in SetNotesBulkSequentialSpec(t, rows) && SetNotesBulkSequentialSpec(t, rows)[k] == v)
      <==> (k in PutAll(t, rows) && PutAll(t, rows)[k] == v)
  {
    var kept := Survivors(rows);
    SurvivorsShape(rows);
    SubKeys(kept, rows);
    var base := WithoutIds(WithoutKeys(t, Keys(rows)), Ids(rows));
    InsertDistinctAt(base, kept, k, v);
    SurvivorsAt(rows, (k, v));
    PutAllAt(t, rows, k, v);
  }

  /** The corrected bulk write equals `set_note` on each row in turn. */
  lemma SequentialSpecIsPutAll(t: Table, rows: seq<Row>)
    ensures SetNotesBulkSequentialSpec(t, rows) == PutAll(t, rows)
  {
    var lhs := SetNotesBulkSequentialSpec(t, rows);
    var rhs := PutAll(t, rows);
    forall k ensures (k in lhs <==> k in rhs) && (k in lhs ==> lhs[k] == rhs[k]) {
      if k in lhs {
        SequentialAt(t, rows, k, lhs[k]);
      }
      if k in rhs {
        SequentialAt(t, rows, k, rhs[k]);
      }
    }
  }

  // ------------------------------------------------------------ fingerprints

  /** The entries `set_note_fingerprints_bulk` keeps: the last one per key. */
  function LastPerKey(entries: seq<FpRow>): seq<FpRow>
    decreases |entries|
  {
    if |entries| == 0 then []
    else
      var tail := LastPerKey(entries[1..]);
      if entries[0].0 in Keys(tail) then tail else [entries[0]] + tail
  }

  /** `INSERT OR REPLACE INTO note_fingerprints` for each entry in turn. */
  function InsertFps(m: map<string, Fingerprint>, entries: seq<FpRow>): map<string, Fingerprint>
    decreases |entries|
  {
    if |entries| == 0 then m else InsertFps(m[entries[0].0 := entries[0].1], entries[1..])
  }

  /** The key `k` holds after the entries: the last entry's fingerprint for
      `k`, or the stored one when no entry names `k`. */
  lemma {:induction false} InsertFpsAt(m: map<string, Fingerprint>, entries: seq<FpRow>, k: string)
    ensures (exists i :: 0 <= i < |entries| && entries[i].0 == k) ==>
      exists i :: 0 <= i < |entries| && entries[i].0 == k
        && (forall j :: i < j < |entries| ==> entries[j].0 != k)
        && k in InsertFps(m, entries) && InsertFps(m, entries)[k] == entries[i].1
    ensures (forall i :: 0 <= i < |entries| ==> entries[i].0 != k) ==>
      (k in InsertFps(m, entries) <==> k in m) && (k in m ==> InsertFps(m, entries)[k] == m[k])
    decreases |entries|
  {
    if |entries| > 0 {
      var rest := entries[1..];
      var m' := m[entries[0].0 := entries[0].1];
      InsertFpsAt(m', rest, k);
      if exists i :: 0 <= i < |rest| && rest[i].0 == k {
        var i :| 0 <= i < |rest| && rest[i].0 == k
          && (forall j :: i < j < |rest| ==> rest[j].0 != k)
          && k in InsertFps(m', rest) && InsertFps(m', rest)[k] == rest[i].1;
        assert entries[i + 1] == rest[i];
        forall j | i + 1 < j < |entries| ensures entries[j].0 != k {
          assert entries[j] == rest[j - 1];
        }
      } else if entries[0].0 == k {
        forall j | 0 < j < |entries| ensures entries[j].0 != k {
          assert entries[j] == rest[j - 1];
        }
      } else {
        forall i | 0 <= i < |rest| ensures rest[i].0 != k {
        }
      }
    }
  }

  /** Keeping only the last entry per key stores the same fingerprints as
      inserting every entry: the last `(md_hash, anki_hash)` given for a key
      is the one stored. */
  lemma {:induction false} LastPerKeySameStore(m: map<string, Fingerprint>, entries: seq<FpRow>)
    ensures InsertFps(m, LastPerKey(entries)) == InsertFps(m, entries)
    decreases |entries|
  {
    if |entries| > 0 {
      var tail := LastPerKey(entries[1..]);
      var e := entries[0];
      LastPerKeySameStore(m[e.0 := e.1], entries[1..]);
      if exists i :: 0 <= i < |tail| && tail[i].0 == e.0 {
        LastPerKeySameStore(m, entries[1..]);
        forall k ensures (k in InsertFps(m, tail) <==> k in InsertFps(m[e.0 := e.1], tail))
          && (k in InsertFps(m, tail) ==> InsertFps(m, tail)[k] == InsertFps(m[e.0 := e.1], tail)[k])
        {
          InsertFpsAt(m, tail, k);
          InsertFpsAt(m[e.0 := e.1], tail, k);
          if exists i :: 0 <= i < |tail| && tail[i].0 == k {
            var i :| 0 <= i < |tail| && tail[i].0 == k
              && (forall j :: i < j < |tail| ==> tail[j].0 != k)
              && k in InsertFps(m, tail) && InsertFps(m, tail)[k] == tail[i].1;
            var i' :| 0 <= i' < |tail| && tail[i'].0 == k
              && (forall j :: i' < j < |tail| ==> tail[j].0 != k)
              && k in InsertFps(m[e.0 := e.1], tail) && InsertFps(m[e.0 := e.1], tail)[k] == tail[i'].1;
            assert i == i';
          }
        }
      }
    }
  }

  // ------------------------------------------------------------ the adapter

  class SqliteDb {
    /** The committed-or-pending contents of the four tables. */
    var store: Store
    /** What a rollback returns to: the tables when the outer transaction began. */
    var snapshot: Store
    /** `_tx_depth`. */
    var txDepth: nat
    /** The transaction statements sent to the connection, in order. */
    var events: seq<TxEvent>

    ghost predicate Valid()
      reads this
    {
      StoreValid(store) && StoreValid(snapshot)
    }

    /** A freshly loaded database: empty tables, depth 0. */
    constructor ()
      ensures Valid() && txDepth == 0 && events == []
      ensures store == Store(map[], map[], map[], map[])
    {
      store := Store(map[], map[], map[], map[]);
      snapshot := Store(map[], map[], map[], map[]);
      txDepth := 0;
      events := [];
    }

    // -------------------------------------------------------- transactions

    /** Entering `transaction()`: only the outermost level sends BEGIN. */
    method Enter() returns (isOuter: bool)
      requires Valid()
      modifies this
      ensures Valid()
      ensures isOuter == (old(txDepth) == 0)
      ensures txDepth == old(txDepth) + 1
      ensures events == old(events) + (if isOuter then [Begin] else [])
      ensures store == old(store)
      ensures snapshot == if isOuter then old(store) else old(snapshot)
    {
      isOuter := txDepth == 0;
      if isOuter {
        events := events + [Begin];
        snapshot := store;
      }
      txDepth := txDepth + 1;
    }

    /** Leaving `transaction()`, normally or through an exception: the depth
        is decremented, and only the outermost level commits or rolls back. */
    method Exit(isOuter: bool, raised: bool)
      requires Valid() && txDepth > 0
      modifies this
      ensures Valid()
      ensures txDepth == old(txDepth) - 1
      ensures events == old(events) + (if isOuter then [if raised then Rollback else Commit] else [])
      ensures store == if isOuter && raised then old(snapshot) else old(store)
      ensures snapshot == old(snapshot)
    {
      txDepth := txDepth - 1;
      if isOuter {
        if raised {
          store := snapshot;
          events := events + [Rollback];
        } else {
          events := events + [Commit];
        }
      }
    }

    /** `with db.transaction(): db.set_note(key, note_id)` whose body then
        raises or not: the depth returns to its entry value, BEGIN and
        COMMIT/ROLLBACK are sent only at the outermost level, and an outermost
        rollback undoes the write. */
    method SetNoteInTransaction(key: string, noteId: int, raised: bool)
      requires Valid()
      modifies this
      ensures Valid()
      ensures txDepth == old(txDepth)
      ensures events == old(events) +
        (if old(txDepth) == 0 then [Begin, if raised then Rollback else Commit] else [])
      ensures old(txDepth) == 0 && raised ==> store == old(store)
      ensures !(old(txDepth) == 0 && raised) ==>
        store == old(store).(notes := Put(old(store).notes, key, noteId))
    {
      var isOuter := Enter();
      SetNote(key, noteId);
      Exit(isOuter, raised);
    }

    // -------------------------------------------------------- chunking

    /** `_chunked(items)`: consecutive slices of at most 500 items. */
    static method Chunked<T>(items: seq<T>) returns (chunks: seq<seq<T>>)
      ensures chunks == Chunks(items, ChunkSize)
    {
      chunks := [];
      var i := 0;
      while i < |items|
        invariant 0 <= i <= |items|
        invariant chunks + Chunks(items[i..], ChunkSize) == Chunks(items, ChunkSize)
        decreases |items| - i
      {
        var j := if i + ChunkSize < |items| then i + ChunkSize else |items|;
        ChunksStep(items, ChunkSize, i);
        chunks := chunks + [items[i..j]];
        i := j;
      }
    }

    // -------------------------------------------------------- statement batches

    /** The `DELETE ... WHERE id IN (...)` statements of `set_notes_bulk`,
        one per chunk of ids. */
    static method DeleteIdsInChunks(t: Table, ids: seq<int>) returns (r: Table)
      ensures r == WithoutIds(t, set x | x in ids)
    {
      var chunks := Chunked(ids);
      ChunksFlatten(ids, ChunkSize);
      r := t;
      var c := 0;
      while c < |chunks|
        invariant 0 <= c <= |chunks|
        invariant forall k :: k in r <==> k in t && t[k] !in Flatten(chunks[..c])
        invariant forall k :: k in r ==> r[k] == t[k]
      {
        FlattenPrefixStep(chunks, c);
        r := WithoutIds(r, set x | x in chunks[c]);
        c := c + 1;
      }
      assert chunks[..c] == chunks;
    }

    /** The `DELETE ... WHERE key IN (...)` statements of the key removals,
        one per chunk of keys. */
    static method DeleteKeysInChunks<V>(m: map<string, V>, keys: seq<string>) returns (r: map<string, V>)
      ensures r == m - set k | k in keys
    {
      var chunks := Chunked(keys);
      ChunksFlatten(keys, ChunkSize);
      r := m;
      var c := 0;
      while c < |chunks|
        invariant 0 <= c <= |chunks|
        invariant forall k :: k in r <==> k in m && k !in Flatten(chunks[..c])
        invariant forall k :: k in r ==> r[k] == m[k]
      {
        FlattenPrefixStep(chunks, c);
        r := r - set k | k in chunks[c];
        c := c + 1;
      }
      assert chunks[..c] == chunks;
    }

    /** `executemany("INSERT OR REPLACE INTO notes ...", rows)`. */
    static method InsertRows(t: Table, rows: seq<Row>) returns (r: Table)
      ensures r == InsertAll(t, rows)
    {
      r := t;
      var i := 0;
      while i < |rows|
        invariant 0 <= i <= |rows|
        invariant InsertAll(r, rows[i..]) == InsertAll(t, rows)
      {
        assert rows[i..][1..] == rows[i + 1..];
        r := r[rows[i].0 := rows[i].1];
        i := i + 1;
      }
      assert rows[i..] == [];
    }

    /** `executemany("INSERT OR REPLACE INTO note_fingerprints ...", rows)`. */
    static method InsertFpRows(m: map<string, Fingerprint>, entries: seq<FpRow>) returns (r: map<string, Fingerprint>)
      ensures r == InsertFps(m, entries)
    {
      r := m;
      var i := 0;
      while i < |entries|
        invariant 0 <= i <= |entries|
        invariant InsertFps(r, entries[i..]) == InsertFps(m, entries)
      {
        assert entries[i..][1..] == entries[i + 1..];
        r := r[entries[i].0 := entries[i].1];
        i := i + 1;
      }
      assert entries[i..] == [];
    }

    // -------------------------------------------------------- reads

    /** `get_note_ids_bulk(keys)`: the stored id of every given key that is
        stored. */
    method GetNoteIdsBulk(keys: seq<string>) returns (out: map<string, int>)
      requires Valid()
      ensures out == map k | k in keys && k in store.notes :: store.notes[k]
    {
      out := map[];
      if |keys| == 0 {
        return;
      }
      var chunks := Chunked(keys);
      ChunksFlatten(keys, ChunkSize);
      var c := 0;
      while c < |chunks|
        invariant 0 <= c <= |chunks|
        invariant forall k :: k in out <==> k in Flatten(chunks[..c]) && k in store.notes
        invariant forall k :: k in out ==> out[k] == store.notes[k]
      {
        FlattenPrefixStep(chunks, c);
        out := out + map k | k in chunks[c] && k in store.notes :: store.notes[k];
        c := c + 1;
      }
      assert chunks[..c] == chunks;
    }

    /** `get_note_keys_bulk(note_ids)`: the key holding each given id that is
        stored. */
    method GetNoteKeysBulk(ids: seq<int>) returns (out: map<int, string>)
      requires Valid()
      ensures forall id :: id in out <==> id in ids && id in store.notes.Values
      ensures forall id :: id in out ==> out[id] in store.notes && store.notes[out[id]] == id
    {
      out := map[];
      if |ids| == 0 {
        return;
      }
      var chunks := Chunked(ids);
      ChunksFlatten(ids, ChunkSize);
      var c := 0;
      while c < |chunks|
        invariant 0 <= c <= |chunks|
        invariant forall id :: id in out <==> id in Flatten(chunks[..c]) && id in store.notes.Values
        invariant forall id :: id in out ==> out[id] in store.notes && store.notes[out[id]] == id
      {
        FlattenPrefixStep(chunks, c);
        var found := map k | k in store.notes && store.notes[k] in chunks[c] :: store.notes[k] := k;
        out := out + found;
        c := c + 1;
      }
      assert chunks[..c] == chunks;
    }

    /** `get_note_fingerprints_bulk(keys)`. */
    method GetNoteFingerprintsBulk(keys: seq<string>) returns (out: map<string, Fingerprint>)
      requires Valid()
      ensures out == map k | k in keys && k in store.fingerprints :: store.fingerprints[k]
    {
      out := map[];
      if |keys| == 0 {
        return;
      }
      var chunks := Chunked(keys);
      ChunksFlatten(keys, ChunkSize);
      var c := 0;
      while c < |chunks|
        invariant 0 <= c <= |chunks|
        invariant forall k :: k in out <==> k in Flatten(chunks[..c]) && k in store.fingerprints
        invariant forall k :: k in out ==> out[k] == store.fingerprints[k]
      {
        FlattenPrefixStep(chunks, c);
        out := out + map k | k in chunks[c] && k in store.fingerprints :: store.fingerprints[k];
        c := c + 1;
      }
      assert chunks[..c] == chunks;
    }

    /** `get_note_id(key)`. */
    method GetNoteId(key: string) returns (r: Option<int>)
      requires Valid()
      ensures r.Some? <==> key in store.notes
      ensures r.Some? ==> store.notes[key] == r.value
    {
      r := IdOf(store.notes, key);
    }

    /** `get_note_key(note_id)`: `None` when no key holds the id. */
    method GetNoteKey(noteId: int) returns (r: Option<string>)
      requires Valid()
      ensures r == KeyOf(store.notes, noteId)
    {
      if noteId in store.notes.Values {
        var k :| k in store.notes && store.notes[k] == noteId;
        r := Some(k);
      } else {
        r := None;
      }
    }

    /** `get_deck_id(name)`. */
    method GetDeckId(name: string) returns (r: Option<int>)
      requires Valid()
      ensures r.Some? <==> name in store.decks
      ensures r.Some? ==> store.decks[name] == r.value
    {
      r := IdOf(store.decks, name);
    }

    /** `get_deck_name(deck_id)`. */
    method GetDeckName(deckId: int) returns (r: Option<string>)
      requires Valid()
      ensures r == KeyOf(store.decks, deckId)
    {
      if deckId in store.decks.Values {
        var k :| k in store.decks && store.decks[k] == deckId;
        r := Some(k);
      } else {
        r := None;
      }
    }

    /** `get_config(key)`. */
    method GetConfig(key: string) returns (r: Option<string>)
      requires Valid()
      ensures r.Some? <==> key in store.config
      ensures r.Some? ==> store.config[key] == r.value
    {
      r := if key in store.config then Some(store.config[key]) else None;
    }

    // -------------------------------------------------------- writes

    /** The dedupe loop of `set_notes_bulk`: scan the rows from the end,
        skip a row whose key or id was already kept, then reverse. */
    static method LastWriteWins(rows: seq<Row>) returns (ordered: seq<Row>)
      ensures ordered == LastWins(rows)
    {
      var seenKeys: set<string> := {};
      var seenIds: set<int> := {};
      var acc: seq<Row> := [];
      var i := |rows|;
      while i > 0
        invariant 0 <= i <= |rows|
        invariant Reversed(acc) == LastWins(rows[i..])
        invariant seenKeys == Keys(acc) && seenIds == Ids(acc)
        decreases i
      {
        i := i - 1;
        var row := rows[i];
        assert rows[i..][1..] == rows[i + 1..];
        ReversedKeys(acc);
        ReversedIds(acc);
        if !(row.0 in seenKeys || row.1 in seenIds) {
          seenKeys := seenKeys + {row.0};
          seenIds := seenIds + {row.1};
          AppendKeys(acc, row);
          AppendIds(acc, row);
          ReversedAppend(acc, row);
          acc := acc + [row];
        }
      }
      ordered := Reversed(acc);
    }

    /** `set_notes_bulk(mappings)` as written: dedupe, delete the kept ids
        chunk by chunk, then insert or replace each kept row. */
    method SetNotesBulk(rows: seq<Row>)
      requires Valid()
      modifies this
      ensures Valid()
      ensures store == old(store).(notes := SetNotesBulkSpec(old(store).notes, rows))
      ensures txDepth == old(txDepth) && events == old(events) && snapshot == old(snapshot)
    {
      var t0 := store.notes;
      if |rows| == 0 {
        assert WithoutIds(t0, {}) == t0;
        return;
      }
      var ordered := LastWriteWins(rows);
      var ids := seq(|ordered|, i requires 0 <= i < |ordered| => ordered[i].1);
      assert (set x | x in ids) == Ids(ordered) by {
        forall x | x in Ids(ordered) ensures x in ids {
          var i :| 0 <= i < |ordered| && ordered[i].1 == x;
          assert ids[i] == x;
        }
      }
      var notes := DeleteIdsInChunks(t0, ids);
      notes := InsertRows(notes, ordered);
      SetNotesBulkInjective(t0, rows);
      store := store.(notes := notes);
    }

    /** The dedupe loop of the corrected bulk write: every scanned row marks
        its key and its id as seen, kept or not. */
    static method SurvivingRows(rows: seq<Row>) returns (kept: seq<Row>)
      ensures kept == Survivors(rows)
    {
      var seenKeys: set<string> := {};
      var seenIds: set<int> := {};
      var acc: seq<Row> := [];
      var i := |rows|;
      while i > 0
        invariant 0 <= i <= |rows|
        invariant Reversed(acc) == Survivors(rows[i..])
        invariant seenKeys == Keys(rows[i..]) && seenIds == Ids(rows[i..])
        decreases i
      {
        i := i - 1;
        var row := rows[i];
        assert rows[i..][1..] == rows[i + 1..];
        ConsKeys(rows, i);
        ConsIds(rows, i);
        if !(row.0 in seenKeys || row.1 in seenIds) {
          ReversedAppend(acc, row);
          acc := acc + [row];
        }
        seenKeys := seenKeys + {row.0};
        seenIds := seenIds + {row.1};
      }
      kept := Reversed(acc);
    }

    /** The corrected bulk write: every written key and every written id is
        deleted, then the surviving rows are inserted; the result is that of
        `set_note` on each row in turn. */
    method SetNotesBulkSequential(rows: seq<Row>)
      requires Valid()
      modifies this
      ensures Valid()
      ensures store == old(store).(notes := PutAll(old(store).notes, rows))
      ensures txDepth == old(txDepth) && events == old(events) && snapshot == old(snapshot)
    {
      var t0 := store.notes;
      SequentialSpecIsPutAll(t0, rows);
      PutAllInjective(t0, rows);
      var kept := SurvivingRows(rows);
      var notes := WithoutIds(WithoutKeys(t0, Keys(rows)), Ids(rows));
      notes := InsertRows(notes, kept);
      store := store.(notes := notes);
    }

    /** `set_note(key, note_id)`: the bulk write of one row, which deletes any
        row holding the id and then binds the key. */
    method SetNote(key: string, noteId: int)
      requires Valid()
      modifies this
      ensures Valid()
      ensures store == old(store).(notes := Put(old(store).notes, key, noteId))
      ensures txDepth == old(txDepth) && events == old(events) && snapshot == old(snapshot)
    {
      SingleRowIsPut(store.notes, key, noteId);
      SetNotesBulk([(key, noteId)]);
    }

    /** `remove_notes_by_keys_bulk(keys)`: deletes the note rows and the
        fingerprint rows of the keys. */
    method RemoveNotesByKeysBulk(keys: seq<string>)
      requires Valid()
      modifies this
      ensures Valid()
      ensures store == old(store).(notes := WithoutKeys(old(store).notes, set k | k in keys),
        fingerprints := old(store).fingerprints - set k | k in keys)
      ensures txDepth == old(txDepth) && events == old(events) && snapshot == old(snapshot)
    {
      var t0 := store.notes;
      var f0 := store.fingerprints;
      if |keys| == 0 {
        assert WithoutKeys(t0, {}) == t0;
        assert f0 - {} == f0;
        return;
      }
      var notes := DeleteKeysInChunks(t0, keys);
      var fps := DeleteKeysInChunks(f0, keys);
      assert notes == WithoutKeys(t0, set k | k in keys);
      DeleteInjective(t0, {}, set k | k in keys);
      store := store.(notes := notes, fingerprints := fps);
    }

    /** `remove_note_by_key(key)`: the bulk removal of one key. */
    method RemoveNoteByKey(key: string)
      requires Valid()
      modifies this
      ensures Valid()
      ensures store == old(store).(notes := old(store).notes - {key},
        fingerprints := old(store).fingerprints - {key})
      ensures txDepth == old(txDepth) && events == old(events) && snapshot == old(snapshot)
    {
      ghost var t := store.notes;
      RemoveNotesByKeysBulk([key]);
      assert (set k | k in [key]) == {key};
      assert WithoutKeys(t, {key}) == t - {key};
    }

    /** `remove_note_by_id(note_id)`: deletes only the note row, never a
        fingerprint. */
    method RemoveNoteById(noteId: int)
      requires Valid()
      modifies this
      ensures Valid()
      ensures store == old(store).(notes := WithoutId(old(store).notes, noteId))
      ensures txDepth == old(txDepth) && events == old(events) && snapshot == old(snapshot)
    {
      DeleteInjective(store.notes, {noteId}, {});
      assert WithoutIds(store.notes, {noteId}) == WithoutId(store.notes, noteId);
      store := store.(notes := WithoutId(store.notes, noteId));
    }

    /** The dedupe loop of `set_note_fingerprints_bulk`: the last entry per
        key, in input order. */
    static method DedupeFingerprints(entries: seq<FpRow>) returns (deduped: seq<FpRow>)
      ensures deduped == LastPerKey(entries)
    {
      var seenKeys: set<string> := {};
      var acc: seq<FpRow> := [];
      var i := |entries|;
      while i > 0
        invariant 0 <= i <= |entries|
        invariant Reversed(acc) == LastPerKey(entries[i..])
        invariant seenKeys == Keys(acc)
        decreases i
      {
        i := i - 1;
        var e := entries[i];
        assert entries[i..][1..] == entries[i + 1..];
        ReversedKeys(acc);
        if e.0 !in seenKeys {
          seenKeys := seenKeys + {e.0};
          AppendKeys(acc, e);
          ReversedAppend(acc, e);
          acc := acc + [e];
        }
      }
      deduped := Reversed(acc);
    }

    /** `set_note_fingerprints_bulk(rows)`: after it, each key holds the last
        fingerprint given for it. */
    method SetNoteFingerprintsBulk(entries: seq<FpRow>)
      requires Valid()
      modifies this
      ensures Valid()
      ensures store == old(store).(fingerprints := InsertFps(old(store).fingerprints, entries))
      ensures txDepth == old(txDepth) && events == old(events) && snapshot == old(snapshot)
    {
      if |entries| == 0 {
        return;
      }
      var deduped := DedupeFingerprints(entries);
      LastPerKeySameStore(store.fingerprints, entries);
      var fps := InsertFpRows(store.fingerprints, deduped);
      store := store.(fingerprints := fps);
    }

    /** `remove_note_fingerprints_by_keys_bulk(keys)`. */
    method RemoveNoteFingerprintsByKeysBulk(keys: seq<string>)
      requires Valid()
      modifies this
      ensures Valid()
      ensures store == old(store).(fingerprints := old(store).fingerprints - set k | k in keys)
      ensures txDepth == old(txDepth) && events == old(events) && snapshot == old(snapshot)
    {
      var f0 := store.fingerprints;
      if |keys| == 0 {
        assert f0 - {} == f0;
        return;
      }
      var fps := DeleteKeysInChunks(f0, keys);
      store := store.(fingerprints := fps);
    }

    /** `set_config(key, value)`. */
    method SetConfig(key: string, value: string)
      requires Valid()
      modifies this
      ensures Valid()
      ensures store == old(store).(config := old(store).config[key := value])
      ensures txDepth == old(txDepth) && events == old(events) && snapshot == old(snapshot)
    {
      store := store.(config := store.config[key := value]);
    }

    /** `set_deck(name, deck_id)`: deletes any deck row holding the id, then
        binds the name, so a rename replaces the old name. */
    method SetDeck(name: string, deckId: int)
      requires Valid()
      modifies this
      ensures Valid()
      ensures store == old(store).(decks := Put(old(store).decks, name, deckId))
      ensures txDepth == old(txDepth) && events == old(events) && snapshot == old(snapshot)
    {
      PutInjective(store.decks, name, deckId);
      store := store.(decks := Put(store.decks, name, deckId));
    }

    /** `remove_deck(name)`. */
    method RemoveDeck(name: string)
      requires Valid()
      modifies this
      ensures Valid()
      ensures store == old(store).(decks := old(store).decks - {name})
      ensures txDepth == old(txDepth) && events == old(events) && snapshot == old(snapshot)
    {
      DeleteInjective(store.decks, {}, {name});
      assert WithoutKeys(store.decks, {name}) == store.decks - {name};
      store := store.(decks := store.decks - {name});
    }
  }

  /** `generate_key()`: `secrets.token_hex(6)` over six random bytes,
      which are a parameter here. */
  function GenerateKey(entropy: seq<Text.Byte>): (key: string)
    requires |entropy| == 6
    ensures |key| == 12 && forall i :: 0 <= i < 12 ==> Text.IsLowerHex(key[i])
  {
    Text.HexEncode(entropy)
  }

  // ------------------------------------------------------------ small sequence facts

  lemma ReversedAppend<T>(s: seq<T>, x: T)
    ensures Reversed(s + [x]) == [x] + Reversed(s)
  {
  }

  lemma ReversedKeys<V>(s: seq<(string, V)>)
    ensures Keys(Reversed(s)) == Keys(s)
  {
    var r := Reversed(s);
    forall x | x in Keys(s) ensures x in Keys(r) {
      var i :| 0 <= i < |s| && s[i].0 == x;
      assert r[|s| - 1 - i] == s[i];
    }
    forall x | x in Keys(r) ensures x in Keys(s) {
      var i :| 0 <= i < |r| && r[i].0 == x;
      assert s[|s| - 1 - i] == r[i];
    }
  }

  lemma ReversedIds(s: seq<Row>)
    ensures Ids(Reversed(s)) == Ids(s)
  {
    var r := Reversed(s);
    forall x | x in Ids(s) ensures x in Ids(r) {
      var i :| 0 <= i < |s| && s[i].1 == x;
      assert r[|s| - 1 - i] == s[i];
    }
    forall x | x in Ids(r) ensures x in Ids(s) {
      var i :| 0 <= i < |r| && r[i].1 == x;
      assert s[|s| - 1 - i] == r[i];
    }
  }

  lemma AppendKeys<V>(s: seq<(string, V)>, x: (string, V))
    ensures Keys(s + [x]) == Keys(s) + {x.0}
  {
    var t := s + [x];
    assert t[|s|] == x;
    forall y | y in Keys(t) ensures y in Keys(s) + {x.0} {
      var i :| 0 <= i < |t| && t[i].0 == y;
      if i < |s| { assert t[i] == s[i]; }
    }
    forall y | y in Keys(s) ensures y in Keys(t) {
      var i :| 0 <= i < |s| && s[i].0 == y;
      assert t[i] == s[i];
    }
  }

  lemma AppendIds(s: seq<Row>, x: Row)
    ensures Ids(s + [x]) == Ids(s) + {x.1}
  {
    var t := s + [x];
    assert t[|s|] == x;
    forall y | y in Ids(t) ensures y in Ids(s) + {x.1} {
      var i :| 0 <= i < |t| && t[i].1 == y;
      if i < |s| { assert t[i] == s[i]; }
    }
    forall y | y in Ids(s) ensures y in Ids(t) {
      var i :| 0 <= i < |s| && s[i].1 == y;
      assert t[i] == s[i];
    }
  }

  lemma ConsKeys<V>(s: seq<(string, V)>, i: nat)
    requires i < |s|
    ensures Keys(s[i..]) == {s[i].0} + Keys(s[i + 1..])
  {
    var a := s[i..];
    var b := s[i + 1..];
    assert a[0] == s[i];
    forall y | y in Keys(a) ensures y in {s[i].0} + Keys(b) {
      var j :| 0 <= j < |a| && a[j].0 == y;
      if j > 0 { assert a[j] == b[j - 1]; }
    }
    forall y | y in Keys(b) ensures y in Keys(a) {
      var j :| 0 <= j < |b| && b[j].0 == y;
      assert a[j + 1] == b[j];
    }
  }

  lemma ConsIds(s: seq<Row>, i: nat)
    requires i < |s|
    ensures Ids(s[i..]) == {s[i].1} + Ids(s[i + 1..])
  {
    var a := s[i..];
    var b := s[i + 1..];
    assert a[0] == s[i];
    forall y | y in Ids(a) ensures y in {s[i].1} + Ids(b) {
      var j :| 0 <= j < |a| && a[j].1 == y;
      if j > 0 { assert a[j] == b[j - 1]; }
    }
    forall y | y in Ids(b) ensures y in Ids(a) {
      var j :| 0 <= j < |b| && b[j].1 == y;
      assert a[j + 1] == b[j];
    }
  }
}
