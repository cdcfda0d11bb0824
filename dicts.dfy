/** Python's insertion-ordered `dict`: the keys in insertion order beside
    the mapping itself. Assigning to a present key keeps its position. */
module Dicts {

  datatype Dict<K, V> = Dict(keys: seq<K>, items: map<K, V>) {
    /** Keys are listed once each, and exactly the mapped ones: every listed
        key is mapped, and there are as many listed keys as mapped ones. */
    ghost predicate Valid() {
      (forall i, j :: 0 <= i < j < |keys| ==> keys[i] != keys[j])
      && (forall i :: 0 <= i < |keys| ==> keys[i] in items)
      && |keys| == |items|
    }
  }

  /** The set of a sequence's elements. */
  function Elements<K>(s: seq<K>): set<K>
    decreases |s|
  {
    if |s| == 0 then {} else Elements(s[..|s| - 1]) + {s[|s| - 1]}
  }

  lemma {:induction false} ElementsIff<K>(s: seq<K>)
    ensures forall k :: k in Elements(s) <==> k in s
    decreases |s|
  {
    if |s| > 0 {
      var n := |s| - 1;
      ElementsIff(s[..n]);
      assert s == s[..n] + [s[n]];
    }
  }

  /** A sequence without repetitions has as many elements as entries. */
  lemma {:induction false} ElementsCard<K>(s: seq<K>)
    requires forall i, j :: 0 <= i < j < |s| ==> s[i] != s[j]
    ensures |Elements(s)| == |s|
    decreases |s|
  {
    if |s| > 0 {
      var n := |s| - 1;
      ElementsCard(s[..n]);
      ElementsIff(s[..n]);
      assert forall i :: 0 <= i < n ==> s[..n][i] != s[n];
    }
  }

  /** A subset is no larger than its superset. */
  lemma {:induction false} SubsetCard<K>(a: set<K>, b: set<K>)
    requires a <= b
    ensures |a| <= |b|
    decreases |a|
  {
    if a != {} {
      var x :| x in a;
      SubsetCard(a - {x}, b - {x});
    }
  }

  /** A subset as large as its superset is the superset. */
  lemma SubsetFull<K>(a: set<K>, b: set<K>)
    requires a <= b && |a| == |b|
    ensures a == b
  {
    if x :| x in b && x !in a {
      SubsetCard(a, b - {x});
    }
  }

  lemma ElementsMapped<K, V>(s: seq<K>, m: map<K, V>)
    requires forall i :: 0 <= i < |s| ==> s[i] in m
    ensures Elements(s) <= m.Keys
  {
    ElementsIff(s);
  }

  /** A valid dictionary maps exactly its listed keys. */
  lemma KeysListed<K, V>(d: Dict<K, V>)
    requires d.Valid()
    ensures forall k :: k in d.items <==> k in d.keys
  {
    ElementsIff(d.keys);
    ElementsCard(d.keys);
    assert |d.items.Keys| == |d.items|;
    ElementsMapped(d.keys, d.items);
    SubsetFull(Elements(d.keys), d.items.Keys);
  }

  function Empty<K, V>(): (d: Dict<K, V>)
    ensures d.Valid() && d.keys == [] && d.items == map[]
  {
    Dict([], map[])
  }

  /** `d[k] = v`. */
  function Put<K(==), V>(d: Dict<K, V>, k: K, v: V): (r: Dict<K, V>)
    requires d.Valid()
    ensures r.Valid()
    ensures r.items == d.items[k := v]
    ensures k in d.items ==> r.keys == d.keys
    ensures k !in d.items ==> r.keys == d.keys + [k]
  {
    if k in d.items then Dict(d.keys, d.items[k := v])
    else Dict(d.keys + [k], d.items[k := v])
  }

  /** A property every entry has, which the stored entry has too, holds
      of every entry after the store; and the store leaves at least one
      key. */
  lemma PutKeeps<K, V>(d: Dict<K, V>, k: K, v: V, P: (K, V) -> bool)
    requires d.Valid() && P(k, v)
    requires forall x :: x in d.items ==> P(x, d.items[x])
    ensures forall x :: x in Put(d, k, v).items ==> P(x, Put(d, k, v).items[x])
    ensures |Put(d, k, v).keys| > 0
  {
    if k in d.items {
      assert |d.keys| == |d.items| > 0;
    }
  }

  /** `{v: k for k, v in d.items()}` over the keys `ks`, in order: a value
      met again is re-bound to the later key. */
  function InvertOver<K, V(==)>(ks: seq<K>, m: map<K, V>): (r: Dict<V, K>)
    requires forall i :: 0 <= i < |ks| ==> ks[i] in m
    ensures r.Valid()
    decreases |ks|
  {
    if |ks| == 0 then Empty()
    else
      var n := |ks| - 1;
      Put(InvertOver(ks[..n], m), m[ks[n]], ks[n])
  }

  function Invert<K, V(==)>(d: Dict<K, V>): Dict<V, K>
    requires d.Valid()
  {
    KeysListed(d);
    InvertOver(d.keys, d.items)
  }

  /** The inverted dictionary has exactly the values as keys. */
  lemma {:induction false} InvertOverKeys<K, V>(ks: seq<K>, m: map<K, V>)
    requires forall i :: 0 <= i < |ks| ==> ks[i] in m
    ensures forall v :: v in InvertOver(ks, m).items <==> exists i :: 0 <= i < |ks| && m[ks[i]] == v
    decreases |ks|
  {
    if |ks| > 0 {
      var n := |ks| - 1;
      var init := ks[..n];
      assert forall i :: 0 <= i < n ==> init[i] == ks[i];
      InvertOverKeys(init, m);
      forall v | exists i :: 0 <= i < |ks| && m[ks[i]] == v
        ensures v in InvertOver(ks, m).items
      {
        var i :| 0 <= i < |ks| && m[ks[i]] == v;
        if i < n {
          assert m[init[i]] == v;
        }
      }
    }
  }

  /** Each key of the inverted dictionary leads back to itself through the
      original one. */
  lemma {:induction false} InvertOverValues<K, V>(ks: seq<K>, m: map<K, V>)
    requires forall i :: 0 <= i < |ks| ==> ks[i] in m
    ensures forall v :: v in InvertOver(ks, m).items ==>
      InvertOver(ks, m).items[v] in ks && m[InvertOver(ks, m).items[v]] == v
    decreases |ks|
  {
    if |ks| > 0 {
      var n := |ks| - 1;
      var init := ks[..n];
      InvertOverValues(init, m);
      assert forall k :: k in init ==> k in ks;
    }
  }

  lemma InvertIsRightInverse<K, V>(d: Dict<K, V>)
    requires d.Valid()
    ensures Invert(d).items.Keys == d.items.Values
    ensures forall v :: v in Invert(d).items ==> Invert(d).items[v] in d.items && d.items[Invert(d).items[v]] == v
  {
    InvertKeys(d);
    KeysListed(d);
    InvertOverValues(d.keys, d.items);
  }

  lemma InvertKeys<K, V>(d: Dict<K, V>)
    requires d.Valid()
    ensures Invert(d).items.Keys == d.items.Values
  {
    KeysListed(d);
    var inv := InvertOver(d.keys, d.items).items;
    assert Invert(d).items == inv;
    InvertOverKeys(d.keys, d.items);
    forall v | v in d.items.Values ensures v in inv {
      var k :| k in d.items && d.items[k] == v;
      var i :| 0 <= i < |d.keys| && d.keys[i] == k;
    }
    InvertOverValues(d.keys, d.items);
    forall v | v in inv ensures v in d.items.Values {
      assert d.items[inv[v]] == v;
    }
  }
}
