/** Python's `sorted`, as the core uses it: on strings (code-point
    lexicographic order) and on records by an integer key. Both are
    insertion sorts proved to return a sorted permutation of the input. */
module Sorting {
  import Seqs

  // ---------------------------------------------------------------- strings

  /** `a <= b` on Python strings: lexicographic on code points. */
  predicate StrLe(a: string, b: string)
    decreases |a|
  {
    |a| == 0 || (|b| > 0 && (a[0] < b[0] || (a[0] == b[0] && StrLe(a[1..], b[1..]))))
  }

  lemma {:induction false} StrLeTotal(a: string, b: string)
    ensures StrLe(a, b) || StrLe(b, a)
    decreases |a|
  {
    if |a| > 0 && |b| > 0 && a[0] == b[0] {
      StrLeTotal(a[1..], b[1..]);
    }
  }

  lemma {:induction false} StrLeRefl(a: string)
    ensures StrLe(a, a)
    decreases |a|
  {
    if |a| > 0 {
      StrLeRefl(a[1..]);
    }
  }

  lemma {:induction false} StrLeTrans(a: string, b: string, c: string)
    requires StrLe(a, b) && StrLe(b, c)
    ensures StrLe(a, c)
    decreases |a|
  {
    if |a| > 0 && a[0] == b[0] && b[0] == c[0] {
      StrLeTrans(a[1..], b[1..], c[1..]);
    }
  }

  lemma {:induction false} StrLeAntisym(a: string, b: string)
    requires StrLe(a, b) && StrLe(b, a)
    ensures a == b
    decreases |a|
  {
    if |a| > 0 {
      StrLeAntisym(a[1..], b[1..]);
      assert a == [a[0]] + a[1..] && b == [b[0]] + b[1..];
    }
  }

  predicate SortedStrings(s: seq<string>) {
    forall i, j :: 0 <= i < j < |s| ==> StrLe(s[i], s[j])
  }

  function InsertString(x: string, s: seq<string>): (r: seq<string>)
    requires SortedStrings(s)
    ensures SortedStrings(r) && multiset(r) == multiset(s) + multiset{x}
    decreases |s|
  {
    if |s| == 0 then [x]
    else if StrLe(x, s[0]) then
      InsertBefore(x, s);
      [x] + s
    else
      var rest := InsertString(x, s[1..]);
      StrLeTotal(x, s[0]);
      InsertAfterHead(s, x, rest);
      assert s == [s[0]] + s[1..];
      [s[0]] + rest
  }

  lemma InsertBefore(x: string, s: seq<string>)
    requires SortedStrings(s) && |s| > 0 && StrLe(x, s[0])
    ensures SortedStrings([x] + s)
  {
    var r := [x] + s;
    forall i, j | 0 <= i < j < |r| ensures StrLe(r[i], r[j]) {
      if i == 0 && j > 1 {
        StrLeTrans(x, s[0], s[j - 1]);
      }
    }
  }

  lemma InsertAfterHead(s: seq<string>, x: string, rest: seq<string>)
    requires SortedStrings(s) && |s| > 0 && StrLe(s[0], x)
    requires SortedStrings(rest) && multiset(rest) == multiset(s[1..]) + multiset{x}
    ensures SortedStrings([s[0]] + rest)
  {
    var r := [s[0]] + rest;
    forall i, j | 0 <= i < j < |r| ensures StrLe(r[i], r[j]) {
      if i == 0 {
        var y := rest[j - 1];
        assert y in multiset(rest);
        if y != x {
          assert y in multiset(s[1..]);
          var k :| 0 <= k < |s[1..]| && s[1..][k] == y;
          assert s[k + 1] == y;
        }
      }
    }
  }

  /** `sorted(names)`. */
  function SortStrings(s: seq<string>): (r: seq<string>)
    ensures SortedStrings(r) && multiset(r) == multiset(s)
    decreases |s|
  {
    if |s| == 0 then []
    else
      assert s == [s[0]] + s[1..];
      InsertString(s[0], SortStrings(s[1..]))
  }

  /** Two sorted lists with the same elements are equal: sorting depends
      only on the multiset of its input. */
  lemma {:induction false} SortedUnique(a: seq<string>, b: seq<string>)
    requires SortedStrings(a) && SortedStrings(b) && multiset(a) == multiset(b)
    ensures a == b
    decreases |a|
  {
    Seqs.MultisetSameLength(a, b);
    if |a| > 0 {
      SortedHeads(a, b);
      Seqs.MultisetTail(a);
      Seqs.MultisetTail(b);
      SortedUnique(a[1..], b[1..]);
      Seqs.ConsEqual(a, b);
    }
  }

  /** Two non-empty sorted lists with the same elements start alike. */
  lemma SortedHeads(a: seq<string>, b: seq<string>)
    requires SortedStrings(a) && SortedStrings(b) && multiset(a) == multiset(b)
    requires |a| > 0 && |b| > 0
    ensures a[0] == b[0]
  {
    assert a[0] in multiset(b) && b[0] in multiset(a);
    var i :| 0 <= i < |b| && b[i] == a[0];
    var j :| 0 <= j < |a| && a[j] == b[0];
    StrLeRefl(a[0]);
    assert StrLe(b[0], a[0]) by { if i > 0 { assert StrLe(b[0], b[i]); } }
    assert StrLe(a[0], b[0]) by { if j > 0 { assert StrLe(a[0], a[j]); } }
    StrLeAntisym(a[0], b[0]);
  }

  /** Sorting is independent of the input order. */
  lemma SortStringsPermutation(a: seq<string>, b: seq<string>)
    requires multiset(a) == multiset(b)
    ensures SortStrings(a) == SortStrings(b)
  {
    SortedUnique(SortStrings(a), SortStrings(b));
  }

  // ---------------------------------------------------------------- by integer key

  predicate SortedBy<T>(s: seq<T>, key: T -> int) {
    forall i, j :: 0 <= i < j < |s| ==> key(s[i]) <= key(s[j])
  }

  function InsertBy<T>(x: T, s: seq<T>, key: T -> int): (r: seq<T>)
    requires SortedBy(s, key)
    ensures SortedBy(r, key) && multiset(r) == multiset(s) + multiset{x}
    ensures |r| == |s| + 1
    decreases |s|
  {
    if |s| == 0 then [x]
    else if key(x) <= key(s[0]) then
      assert s == [s[0]] + s[1..];
      [x] + s
    else
      var rest := InsertBy(x, s[1..], key);
      assert s == [s[0]] + s[1..];
      InsertByAfterHead(s, x, rest, key);
      [s[0]] + rest
  }

  lemma InsertByAfterHead<T>(s: seq<T>, x: T, rest: seq<T>, key: T -> int)
    requires SortedBy(s, key) && |s| > 0 && key(s[0]) <= key(x)
    requires SortedBy(rest, key) && multiset(rest) == multiset(s[1..]) + multiset{x}
    ensures SortedBy([s[0]] + rest, key)
  {
    var r := [s[0]] + rest;
    forall i, j | 0 <= i < j < |r| ensures key(r[i]) <= key(r[j]) {
      if i == 0 {
        var y := rest[j - 1];
        assert y in multiset(rest);
        if y != x {
          assert y in multiset(s[1..]);
          var k :| 0 <= k < |s[1..]| && s[1..][k] == y;
          assert s[k + 1] == y;
        }
      }
    }
  }

  /** `sorted(items, key=key)`. */
  function SortBy<T>(s: seq<T>, key: T -> int): (r: seq<T>)
    ensures SortedBy(r, key) && multiset(r) == multiset(s) && |r| == |s|
    decreases |s|
  {
    if |s| == 0 then []
    else
      assert s == [s[0]] + s[1..];
      InsertBy(s[0], SortBy(s[1..], key), key)
  }
}
