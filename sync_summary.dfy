/** The change log of a sync and the summary computed from it: changes on
    the same entity are deduplicated by priority, the effective changes are
    counted per summary counter, summaries add fieldwise and format as a
    one-line report. */
module SyncSummaries {
  import Text

  datatype ChangeType = Create | Update | Delete | Move | Skip | Conflict | Hash | Sync

  /** `Change.entity_id`: an `int`, a `str` or `None`. */
  datatype EntityId = NoId | IntId(i: int) | StrId(s: string)

  /** A recorded change. Its free-form `context` is not modelled. */
  datatype Change = Change(changeType: ChangeType, entityId: EntityId, entityRepr: string)

  /** A key of the `effective` dictionary. */
  datatype Key = IntKey(i: int) | StrKey(s: string)

  /** `c.entity_id or c.entity_repr`: a falsy id (`None`, `0`, `""`) falls
      back to the representation. */
  function EntityKey(c: Change): (k: Key)
    ensures c.entityId.IntId? && c.entityId.i != 0 ==> k == IntKey(c.entityId.i)
    ensures c.entityId.StrId? && c.entityId.s != "" ==> k == StrKey(c.entityId.s)
    ensures c.entityId == NoId || c.entityId == IntId(0) || c.entityId == StrId("") ==> k == StrKey(c.entityRepr)
  {
    match c.entityId
    case IntId(i) => if i != 0 then IntKey(i) else StrKey(c.entityRepr)
    case StrId(s) => if s != "" then StrKey(s) else StrKey(c.entityRepr)
    case NoId => StrKey(c.entityRepr)
  }

  /** `_CHANGE_PRIORITY`. */
  function Priority(ct: ChangeType): nat {
    match ct
    case Skip => 0
    case Hash => 1
    case Sync => 2
    case Update => 3
    case Create => 4
    case Move => 5
    case Delete => 6
    case Conflict => 7
  }

  /** Distinct change types have distinct priorities, so the highest one
      names a single type. */
  lemma PriorityInjective(a: ChangeType, b: ChangeType)
    ensures Priority(a) == Priority(b) ==> a == b
  {
  }

  // ---------------------------------------------------------------- SyncSummary

  datatype SyncSummary = SyncSummary(total: nat, created: nat, updated: nat, deleted: nat, moved: nat,
                                     skipped: nat, errors: nat, hashed: nat, synced: nat)

  const Zero := SyncSummary(0, 0, 0, 0, 0, 0, 0, 0, 0)

  /** `SyncSummary.__add__`: fieldwise addition. */
  function Add(a: SyncSummary, b: SyncSummary): SyncSummary {
    SyncSummary(a.total + b.total, a.created + b.created, a.updated + b.updated, a.deleted + b.deleted,
                a.moved + b.moved, a.skipped + b.skipped, a.errors + b.errors, a.hashed + b.hashed,
                a.synced + b.synced)
  }

  /** The empty summary is the unit of `+`, which is commutative and
      associative. */
  lemma AddLaws(a: SyncSummary, b: SyncSummary, c: SyncSummary)
    ensures Add(Zero, a) == a && Add(a, Zero) == a
    ensures Add(a, b) == Add(b, a)
    ensures Add(Add(a, b), c) == Add(a, Add(b, c))
  {
  }

  /** `sum(summaries, SyncSummary())`, added left to right. */
  function SumAll(summaries: seq<SyncSummary>): SyncSummary
    decreases |summaries|
  {
    if |summaries| == 0 then Zero else Add(SumAll(summaries[..|summaries| - 1]), summaries[|summaries| - 1])
  }

  /** Summing a concatenation is adding the two sums. */
  lemma {:induction false} SumAllAppend(a: seq<SyncSummary>, b: seq<SyncSummary>)
    ensures SumAll(a + b) == Add(SumAll(a), SumAll(b))
    decreases |b|
  {
    if |b| == 0 {
      assert a + b == a;
      AddLaws(SumAll(a), Zero, Zero);
    } else {
      var n := |b| - 1;
      assert (a + b)[..|a + b| - 1] == a + b[..n];
      assert (a + b)[|a + b| - 1] == b[n];
      SumAllAppend(a, b[..n]);
      AddLaws(SumAll(a), SumAll(b[..n]), b[n]);
      calc {
        SumAll(a + b);
        Add(SumAll(a + b[..n]), b[n]);
        Add(Add(SumAll(a), SumAll(b[..n])), b[n]);
        Add(SumAll(a), Add(SumAll(b[..n]), b[n]));
        Add(SumAll(a), SumAll(b));
      }
    }
  }

  /** The counters `format` shows, in its order: neither `total` nor
      `skipped` is among them. */
  function Shown(s: SyncSummary): seq<(string, nat)> {
    [("created", s.created), ("updated", s.updated), ("deleted", s.deleted), ("moved", s.moved),
     ("errors", s.errors), ("hashed", s.hashed), ("synced", s.synced)]
  }

  function PartOf(item: (string, nat)): string {
    Text.NatToString(item.1) + " " + item.0
  }

  /** `"{val} {key}"` for each positive counter, in order. */
  function Parts(items: seq<(string, nat)>): (r: seq<string>)
    ensures |r| <= |items|
    ensures r == [] <==> forall k :: 0 <= k < |items| ==> items[k].1 == 0
    ensures forall k :: 0 <= k < |items| && items[k].1 > 0 ==> PartOf(items[k]) in r
    ensures forall p :: p in r ==> exists k :: 0 <= k < |items| && items[k].1 > 0 && p == PartOf(items[k])
    decreases |items|
  {
    if |items| == 0 then []
    else
      var n := |items| - 1;
      var prev := Parts(items[..n]);
      assert forall k :: 0 <= k < n ==> items[..n][k] == items[k];
      prev + (if items[n].1 > 0 then [PartOf(items[n])] else [])
  }

  /** `SyncSummary.format`. */
  function Format(s: SyncSummary): string {
    var parts := Parts(Shown(s));
    if parts == [] then "no changes" else Text.Join(parts, ", ")
  }

  /** A joined list starts with its first part. */
  lemma JoinStartsWithFirst(parts: seq<string>, sep: string)
    requires |parts| > 0
    ensures Text.StartsWith(Text.Join(parts, sep), parts[0])
  {
    if |parts| > 1 {
      assert Text.Join(parts, sep) == parts[0] + (sep + Text.Join(parts[1..], sep));
    }
  }

  /** The parts list is empty exactly when the seven shown counters are. */
  lemma NoPartsIff(s: SyncSummary)
    ensures Parts(Shown(s)) == [] <==>
      s.created == 0 && s.updated == 0 && s.deleted == 0 && s.moved == 0
      && s.errors == 0 && s.hashed == 0 && s.synced == 0
  {
    var items := Shown(s);
    assert items[0].1 == s.created && items[1].1 == s.updated && items[2].1 == s.deleted;
    assert items[3].1 == s.moved && items[4].1 == s.errors && items[5].1 == s.hashed && items[6].1 == s.synced;
  }

  /** The report says `no changes` exactly when the seven shown counters are
      zero; otherwise it starts with the first positive one. */
  lemma FormatNoChanges(s: SyncSummary)
    ensures Format(s) == "no changes" <==>
      s.created == 0 && s.updated == 0 && s.deleted == 0 && s.moved == 0
      && s.errors == 0 && s.hashed == 0 && s.synced == 0
    ensures Parts(Shown(s)) != [] ==> Text.StartsWith(Format(s), Parts(Shown(s))[0])
  {
    NoPartsIff(s);
    var items := Shown(s);
    var parts := Parts(items);
    if parts != [] {
      JoinStartsWithFirst(parts, ", ");
      assert parts[0] in parts;
      var k :| 0 <= k < |items| && items[k].1 > 0 && parts[0] == PartOf(items[k]);
      var digits := Text.NatToString(items[k].1);
      assert parts[0][0] == digits[0];
      assert Text.IsDigit(digits[0]);
      assert Format(s)[0] == parts[0][0];
      assert "no changes"[0] == 'n';
    }
  }

  /** `total` and `skipped` do not reach the report. */
  lemma FormatIgnoresTotalAndSkipped(s: SyncSummary, total: nat, skipped: nat)
    ensures Format(s.(total := total, skipped := skipped)) == Format(s)
  {
    assert Shown(s.(total := total, skipped := skipped)) == Shown(s);
  }

  // ---------------------------------------------------------------- _compute_summary

  /** The summary counters a change type can feed. */
  datatype Counter = Created | Updated | Deleted | Moved | Skipped | Hashed | Synced

  /** A `mapping` argument of `_compute_summary`. */
  type Mapping = map<ChangeType, Counter>

  /** `_NOTE_MAPPING`. */
  const NoteMapping: Mapping := map[Create := Created, Update := Updated, Delete := Deleted,
                                    Move := Moved, Skip := Skipped]

  /** `_MEDIA_MAPPING`; the export summary spells out the same table. */
  const MediaMapping: Mapping := NoteMapping[Hash := Hashed][Sync := Synced]

  /** `setattr(base, field, getattr(base, field) + 1)`. */
  function Bump(s: SyncSummary, c: Counter): (r: SyncSummary)
    ensures Get(r, c) == Get(s, c) + 1
    ensures forall d :: d != c ==> Get(r, d) == Get(s, d)
    ensures r.total == s.total && r.errors == s.errors
  {
    match c
    case Created => s.(created := s.created + 1)
    case Updated => s.(updated := s.updated + 1)
    case Deleted => s.(deleted := s.deleted + 1)
    case Moved => s.(moved := s.moved + 1)
    case Skipped => s.(skipped := s.skipped + 1)
    case Hashed => s.(hashed := s.hashed + 1)
    case Synced => s.(synced := s.synced + 1)
  }

  function Get(s: SyncSummary, c: Counter): nat {
    match c
    case Created => s.created
    case Updated => s.updated
    case Deleted => s.deleted
    case Moved => s.moved
    case Skipped => s.skipped
    case Hashed => s.hashed
    case Synced => s.synced
  }

  /** The loop that fills `effective`: for each entity, the change of the
      highest priority seen so far; ties keep the earlier change. */
  function Effective(changes: seq<Change>): map<Key, ChangeType>
    decreases |changes|
  {
    if |changes| == 0 then map[]
    else
      var m := Effective(changes[..|changes| - 1]);
      var c := changes[|changes| - 1];
      var k := EntityKey(c);
      if k !in m || Priority(c.changeType) > Priority(m[k]) then m[k := c.changeType] else m
  }

  /** Some change of the log concerns entity `key`. */
  predicate Concerns(changes: seq<Change>, key: Key) {
    exists i :: 0 <= i < |changes| && EntityKey(changes[i]) == key
  }

  /** Some change of the log gives entity `key` the type `ct`. */
  predicate Attains(changes: seq<Change>, key: Key, ct: ChangeType) {
    exists i :: 0 <= i < |changes| && EntityKey(changes[i]) == key && changes[i].changeType == ct
  }

  /** No change of the log on entity `key` has a priority above `ct`'s. */
  predicate Dominates(changes: seq<Change>, key: Key, ct: ChangeType) {
    forall i :: 0 <= i < |changes| && EntityKey(changes[i]) == key ==> Priority(changes[i].changeType) <= Priority(ct)
  }

  lemma {:induction false} EffectiveDomain(changes: seq<Change>)
    ensures forall key :: key in Effective(changes) <==> Concerns(changes, key)
    decreases |changes|
  {
    if |changes| > 0 {
      var n := |changes| - 1;
      var init := changes[..n];
      EffectiveDomain(init);
      var m := Effective(init);
      var k := EntityKey(changes[n]);
      assert Effective(changes).Keys == m.Keys + {k};
      forall key ensures Concerns(changes, key) <==> Concerns(init, key) || key == k {
        if Concerns(changes, key) && key != k {
          var i :| 0 <= i < |changes| && EntityKey(changes[i]) == key;
          assert init[i] == changes[i];
        }
        if Concerns(init, key) {
          var i :| 0 <= i < n && EntityKey(init[i]) == key;
          assert init[i] == changes[i];
        }
      }
    }
  }

  lemma {:induction false} EffectiveAttained(changes: seq<Change>)
    ensures forall key :: key in Effective(changes) ==> Attains(changes, key, Effective(changes)[key])
    decreases |changes|
  {
    if |changes| > 0 {
      var n := |changes| - 1;
      var init := changes[..n];
      EffectiveAttained(init);
      var m := Effective(init);
      var e := Effective(changes);
      var c := changes[n];
      var k := EntityKey(c);
      var updated := k !in m || Priority(c.changeType) > Priority(m[k]);
      assert e == if updated then m[k := c.changeType] else m;
      forall key | key in e ensures Attains(changes, key, e[key]) {
        if key == k && updated {
          assert EntityKey(changes[n]) == key && changes[n].changeType == e[key];
        } else {
          var i :| 0 <= i < n && EntityKey(init[i]) == key && init[i].changeType == m[key];
          assert changes[i] == init[i];
        }
      }
    }
  }

  lemma {:induction false} EffectiveDominates(changes: seq<Change>)
    ensures forall key :: key in Effective(changes) ==> Dominates(changes, key, Effective(changes)[key])
    decreases |changes|
  {
    if |changes| > 0 {
      var n := |changes| - 1;
      var init := changes[..n];
      EffectiveDominates(init);
      EffectiveDomain(init);
      var m := Effective(init);
      var e := Effective(changes);
      var c := changes[n];
      var k := EntityKey(c);
      var updated := k !in m || Priority(c.changeType) > Priority(m[k]);
      assert e == if updated then m[k := c.changeType] else m;
      forall key, i | key in e && 0 <= i < |changes| && EntityKey(changes[i]) == key
        ensures Priority(changes[i].changeType) <= Priority(e[key])
      {
        if i < n {
          assert init[i] == changes[i];
          assert Concerns(init, key);
          assert Priority(init[i].changeType) <= Priority(m[key]);
        }
      }
    }
  }

  /** One effective change per entity that has changes, and it is the one
      of the highest priority among that entity's changes. */
  lemma EffectiveIsHighest(changes: seq<Change>)
    ensures forall key :: key in Effective(changes) <==> Concerns(changes, key)
    ensures forall key :: key in Effective(changes) ==>
      Attains(changes, key, Effective(changes)[key]) && Dominates(changes, key, Effective(changes)[key])
  {
    EffectiveDomain(changes);
    EffectiveAttained(changes);
    EffectiveDominates(changes);
  }

  /** The change types counted by `total`. */
  const Counted: set<ChangeType> := {Create, Update, Move, Skip, Hash, Sync}

  /** The change types the mapping sends to counter `c`. */
  function MappedTo(mapping: Mapping, c: Counter): set<ChangeType> {
    set ct | ct in mapping && mapping[ct] == c
  }

  /** The entities among `keys` whose effective change type is in `cts`. */
  function Select(keys: set<Key>, eff: map<Key, ChangeType>, cts: set<ChangeType>): set<Key> {
    set k | k in keys && k in eff && eff[k] in cts
  }

  /** What `_compute_summary` promises: `total` counts the effective
      changes that are neither deletions nor conflicts, `errors` is the
      number of error messages, and each counter counts the effective
      changes the mapping sends to it. */
  function SummaryOf(eff: map<Key, ChangeType>, errorCount: nat, mapping: Mapping): SyncSummary {
    var keys := eff.Keys;
    SyncSummary(|Select(keys, eff, Counted)|,
                |Select(keys, eff, MappedTo(mapping, Created))|,
                |Select(keys, eff, MappedTo(mapping, Updated))|,
                |Select(keys, eff, MappedTo(mapping, Deleted))|,
                |Select(keys, eff, MappedTo(mapping, Moved))|,
                |Select(keys, eff, MappedTo(mapping, Skipped))|,
                errorCount,
                |Select(keys, eff, MappedTo(mapping, Hashed))|,
                |Select(keys, eff, MappedTo(mapping, Synced))|)
  }

  /** `_compute_summary` as a function of the change log. */
  function ComputeSummarySpec(changes: seq<Change>, errorCount: nat, mapping: Mapping): SyncSummary {
    SummaryOf(Effective(changes), errorCount, mapping)
  }

  /** The number of keys of `order` whose effective type is in `cts`. */
  function Count(order: seq<Key>, eff: map<Key, ChangeType>, cts: set<ChangeType>): nat
    decreases |order|
  {
    if |order| == 0 then 0
    else
      var n := |order| - 1;
      Count(order[..n], eff, cts) + (if order[n] in eff && eff[order[n]] in cts then 1 else 0)
  }

  predicate Distinct(order: seq<Key>) {
    forall a, b :: 0 <= a < b < |order| ==> order[a] != order[b]
  }

  /** Counting along a duplicate-free order is counting the selected set. */
  lemma {:induction false} CountIsCard(order: seq<Key>, eff: map<Key, ChangeType>, cts: set<ChangeType>)
    requires Distinct(order)
    ensures Count(order, eff, cts) == |Select((set k | k in order), eff, cts)|
    decreases |order|
  {
    if |order| > 0 {
      var n := |order| - 1;
      var init := order[..n];
      CountIsCard(init, eff, cts);
      var before := Select((set k | k in init), eff, cts);
      var after := Select((set k | k in order), eff, cts);
      assert order[n] !in before;
      if order[n] in eff && eff[order[n]] in cts {
        assert after == before + {order[n]};
      } else {
        assert after == before;
      }
    }
  }

  /** The counters after tallying the keys of `order`. */
  function Tally(order: seq<Key>, eff: map<Key, ChangeType>, errorCount: nat, mapping: Mapping): SyncSummary {
    SyncSummary(Count(order, eff, Counted),
                Count(order, eff, MappedTo(mapping, Created)),
                Count(order, eff, MappedTo(mapping, Updated)),
                Count(order, eff, MappedTo(mapping, Deleted)),
                Count(order, eff, MappedTo(mapping, Moved)),
                Count(order, eff, MappedTo(mapping, Skipped)),
                errorCount,
                Count(order, eff, MappedTo(mapping, Hashed)),
                Count(order, eff, MappedTo(mapping, Synced)))
  }

  /** Tallying every key once, in any order, gives the summary. */
  lemma TallyIsSummary(order: seq<Key>, eff: map<Key, ChangeType>, errorCount: nat, mapping: Mapping)
    requires Distinct(order) && (set k | k in order) == eff.Keys
    ensures Tally(order, eff, errorCount, mapping) == SummaryOf(eff, errorCount, mapping)
  {
    CountIsCard(order, eff, Counted);
    CountIsCard(order, eff, MappedTo(mapping, Created));
    CountIsCard(order, eff, MappedTo(mapping, Updated));
    CountIsCard(order, eff, MappedTo(mapping, Deleted));
    CountIsCard(order, eff, MappedTo(mapping, Moved));
    CountIsCard(order, eff, MappedTo(mapping, Skipped));
    CountIsCard(order, eff, MappedTo(mapping, Hashed));
    CountIsCard(order, eff, MappedTo(mapping, Synced));
  }

  /** One step of the counting loop. */
  function TallyStep(s: SyncSummary, ct: ChangeType, mapping: Mapping): SyncSummary {
    var mapped := if ct in mapping then Bump(s, mapping[ct]) else s;
    if ct != Delete && ct != Conflict then mapped.(total := mapped.total + 1) else mapped
  }

  lemma TallyExtends(order: seq<Key>, j: nat, eff: map<Key, ChangeType>, errorCount: nat, mapping: Mapping)
    requires j < |order| && order[j] in eff
    ensures Tally(order[..j + 1], eff, errorCount, mapping)
      == TallyStep(Tally(order[..j], eff, errorCount, mapping), eff[order[j]], mapping)
  {
    assert order[..j + 1][..j] == order[..j];
  }

  /** `_compute_summary`: the first loop keeps the highest-priority change
      per entity (remembering the dictionary's insertion order), the second
      counts the effective changes. */
  method ComputeSummary(changes: seq<Change>, errorCount: nat, mapping: Mapping) returns (s: SyncSummary)
    ensures s == ComputeSummarySpec(changes, errorCount, mapping)
  {
    var effective: map<Key, ChangeType> := map[];
    var order: seq<Key> := [];
    for i := 0 to |changes|
      invariant effective == Effective(changes[..i])
      invariant Distinct(order) && (set k | k in order) == effective.Keys
    {
      var c := changes[i];
      var eid := EntityKey(c);
      assert changes[..i + 1][..i] == changes[..i];
      if eid !in effective || Priority(c.changeType) > Priority(effective[eid]) {
        if eid !in effective {
          order := order + [eid];
        }
        effective := effective[eid := c.changeType];
      }
    }
    assert changes[..|changes|] == changes;
    s := Zero.(errors := errorCount);
    for j := 0 to |order|
      invariant s == Tally(order[..j], effective, errorCount, mapping)
    {
      assert order[j] in effective;
      TallyExtends(order, j, effective, errorCount, mapping);
      var ct := effective[order[j]];
      if ct in mapping {
        s := Bump(s, mapping[ct]);
      }
      if ct != Delete && ct != Conflict {
        s := s.(total := s.total + 1);
      }
    }
    assert order[..|order|] == order;
    TallyIsSummary(order, effective, errorCount, mapping);
  }

  /** Selecting by two disjoint sets of types counts each selection once. */
  lemma SelectSplit(keys: set<Key>, eff: map<Key, ChangeType>, x: set<ChangeType>, y: set<ChangeType>)
    requires x * y == {}
    ensures |Select(keys, eff, x + y)| == |Select(keys, eff, x)| + |Select(keys, eff, y)|
  {
    var a := Select(keys, eff, x);
    var b := Select(keys, eff, y);
    assert Select(keys, eff, x + y) == a + b;
    forall k | k in a ensures k !in b {
      assert eff[k] in x && eff[k] !in x * y;
    }
    assert a * b == {};
  }

  /** With the media table every counted change lands in exactly one
      counter, so `total` is the sum of the six non-deletion counters. */
  lemma MediaTotal(eff: map<Key, ChangeType>, errorCount: nat)
    ensures var s := SummaryOf(eff, errorCount, MediaMapping);
      s.total == s.created + s.updated + s.moved + s.skipped + s.hashed + s.synced
  {
    var keys := eff.Keys;
    MediaMappedTo();
    CountedSplit(keys, eff);
  }

  /** The media table sends each counted type to its own counter. */
  lemma MediaMappedTo()
    ensures MappedTo(MediaMapping, Created) == {Create} && MappedTo(MediaMapping, Updated) == {Update}
    ensures MappedTo(MediaMapping, Moved) == {Move} && MappedTo(MediaMapping, Skipped) == {Skip}
    ensures MappedTo(MediaMapping, Hashed) == {Hash} && MappedTo(MediaMapping, Synced) == {Sync}
  {
  }

  /** The counted entities split by their six types. */
  lemma CountedSplit(keys: set<Key>, eff: map<Key, ChangeType>)
    ensures |Select(keys, eff, Counted)| == |Select(keys, eff, {Create})| + |Select(keys, eff, {Update})|
      + |Select(keys, eff, {Move})| + |Select(keys, eff, {Skip})| + |Select(keys, eff, {Hash})|
      + |Select(keys, eff, {Sync})|
  {
    SelectSplit(keys, eff, {Create}, {Update});
    SelectSplit(keys, eff, {Create, Update}, {Move});
    SelectSplit(keys, eff, {Create, Update, Move}, {Skip});
    SelectSplit(keys, eff, {Create, Update, Move, Skip}, {Hash});
    SelectSplit(keys, eff, {Create, Update, Move, Skip, Hash}, {Sync});
    assert {Create} + {Update} == {Create, Update};
    assert {Create, Update} + {Move} == {Create, Update, Move};
    assert {Create, Update, Move} + {Skip} == {Create, Update, Move, Skip};
    assert {Create, Update, Move, Skip} + {Hash} == {Create, Update, Move, Skip, Hash};
    assert {Create, Update, Move, Skip, Hash} + {Sync} == Counted;
  }

  /** A change log that repeats itself summarises like the log alone. */
  lemma {:induction false} EffectiveRepeat(changes: seq<Change>, more: seq<Change>)
    requires forall i :: 0 <= i < |more| ==> more[i] in changes
    ensures Effective(changes + more) == Effective(changes)
    decreases |more|
  {
    if |more| > 0 {
      var n := |more| - 1;
      assert (changes + more)[..|changes + more| - 1] == changes + more[..n];
      EffectiveRepeat(changes, more[..n]);
      EffectiveIsHighest(changes);
      var c := more[n];
      var i :| 0 <= i < |changes| && changes[i] == c;
      assert (changes + more)[|changes + more| - 1] == c;
      assert EntityKey(changes[i]) == EntityKey(c);
      assert EntityKey(c) in Effective(changes);
      assert Priority(c.changeType) <= Priority(Effective(changes)[EntityKey(c)]);
    } else {
      assert changes + more == changes;
    }
  }

  // ---------------------------------------------------------------- result summaries

  /** `NoteSyncResult`: the changes and errors of one deck file. */
  datatype NoteSyncResult = NoteSyncResult(deckName: string, changes: seq<Change>, errors: seq<string>)

  /** `NoteSyncResult.summary`. */
  function NoteSummary(r: NoteSyncResult): SyncSummary {
    ComputeSummarySpec(r.changes, |r.errors|, NoteMapping)
  }

  /** `MediaSyncResult.summary`. */
  function MediaSummary(changes: seq<Change>, errors: seq<string>): (s: SyncSummary)
    ensures s.total == s.created + s.updated + s.moved + s.skipped + s.hashed + s.synced
    ensures s.errors == |errors|
  {
    MediaTotal(Effective(changes), |errors|);
    ComputeSummarySpec(changes, |errors|, MediaMapping)
  }

  function NoteSummaries(results: seq<NoteSyncResult>): (r: seq<SyncSummary>)
    ensures |r| == |results| && forall i :: 0 <= i < |results| ==> r[i] == NoteSummary(results[i])
  {
    seq(|results|, i requires 0 <= i < |results| => NoteSummary(results[i]))
  }

  /** `CollectionImportResult.summary`: the sum of the deck summaries. */
  function ImportSummary(results: seq<NoteSyncResult>): SyncSummary {
    SumAll(NoteSummaries(results))
  }

  /** Importing two batches of decks sums to the two summaries added. */
  lemma ImportSummarySplit(a: seq<NoteSyncResult>, b: seq<NoteSyncResult>)
    ensures ImportSummary(a + b) == Add(ImportSummary(a), ImportSummary(b))
  {
    assert NoteSummaries(a + b) == NoteSummaries(a) + NoteSummaries(b);
    SumAllAppend(NoteSummaries(a), NoteSummaries(b));
  }

  /** The number of changes in `extra` whose type has a counter. */
  function MappedCount(extra: seq<Change>): nat
    decreases |extra|
  {
    if |extra| == 0 then 0
    else MappedCount(extra[..|extra| - 1]) + (if extra[|extra| - 1].changeType in MediaMapping then 1 else 0)
  }

  /** What the extra changes of an export add: one per mapped change, with
      no deduplication and nothing added to `total` or `errors`. */
  function ExtraCounts(extra: seq<Change>): (r: SyncSummary)
    ensures r.total == 0 && r.errors == 0
    ensures r.created + r.updated + r.deleted + r.moved + r.skipped + r.hashed + r.synced == MappedCount(extra)
    decreases |extra|
  {
    if |extra| == 0 then Zero
    else
      var n := |extra| - 1;
      var prev := ExtraCounts(extra[..n]);
      if extra[n].changeType in MediaMapping then Bump(prev, MediaMapping[extra[n].changeType]) else prev
  }

  /** Only a conflict has no counter. */
  lemma {:induction false} MappedCountConflicts(extra: seq<Change>)
    ensures MappedCount(extra) + |ConflictIndexes(extra)| == |extra|
    decreases |extra|
  {
    if |extra| > 0 {
      var n := |extra| - 1;
      MappedCountConflicts(extra[..n]);
      ConflictIndexesLast(extra);
    }
  }

  function ConflictIndexes(extra: seq<Change>): set<nat> {
    set i: nat | i < |extra| && extra[i].changeType == Conflict
  }

  lemma ConflictIndexesLast(extra: seq<Change>)
    requires |extra| > 0
    ensures var n := |extra| - 1;
      ConflictIndexes(extra)
        == ConflictIndexes(extra[..n]) + (if extra[n].changeType == Conflict then {n} else {})
  {
    var n := |extra| - 1;
    assert forall i :: 0 <= i < n ==> extra[..n][i] == extra[i];
  }

  /** Incrementing a counter commutes with adding a summary. */
  lemma AddBump(a: SyncSummary, b: SyncSummary, c: Counter)
    ensures Add(a, Bump(b, c)) == Bump(Add(a, b), c)
  {
    match c
    case Created =>
    case Updated =>
    case Deleted =>
    case Moved =>
    case Skipped =>
    case Hashed =>
    case Synced =>
  }

  /** The deck summaries summed in order. */
  method SumNoteSummaries(results: seq<NoteSyncResult>) returns (s: SyncSummary)
    ensures s == ImportSummary(results)
  {
    s := Zero;
    for i := 0 to |results|
      invariant s == SumAll(NoteSummaries(results)[..i])
    {
      var r := ComputeSummary(results[i].changes, |results[i].errors|, NoteMapping);
      assert NoteSummaries(results)[..i + 1][..i] == NoteSummaries(results)[..i];
      s := Add(s, r);
    }
    assert NoteSummaries(results)[..|results|] == NoteSummaries(results);
  }

  /** The loop over the extra changes of an export. */
  method AddExtraChanges(base: SyncSummary, extra: seq<Change>) returns (s: SyncSummary)
    ensures s == Add(base, ExtraCounts(extra))
  {
    s := base;
    AddLaws(base, Zero, Zero);
    for j := 0 to |extra|
      invariant s == Add(base, ExtraCounts(extra[..j]))
    {
      assert extra[..j + 1][..j] == extra[..j];
      var ct := extra[j].changeType;
      if ct in MediaMapping {
        AddBump(base, ExtraCounts(extra[..j]), MediaMapping[ct]);
        s := Bump(s, MediaMapping[ct]);
      }
    }
    assert extra[..|extra|] == extra;
  }

  /** `CollectionExportResult.summary`: the deck summaries summed, then one
      increment per extra change whose type has a counter. */
  method ExportSummary(results: seq<NoteSyncResult>, extra: seq<Change>) returns (s: SyncSummary)
    ensures s == Add(ImportSummary(results), ExtraCounts(extra))
    ensures s.total == ImportSummary(results).total && s.errors == ImportSummary(results).errors
  {
    var base := SumNoteSummaries(results);
    s := AddExtraChanges(base, extra);
  }
}
