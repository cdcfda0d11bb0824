/** Small facts about sequence slicing and concatenation, each proved on
    its own so that callers need no extensionality reasoning in their own,
    larger contexts. */
module Seqs {
  /** The first components of a list of pairs, in order: the names of a
      list of `(name, value)` fields or members. */
  function Firsts<K, V>(pairs: seq<(K, V)>): (r: seq<K>)
    ensures |r| == |pairs| && forall i :: 0 <= i < |r| ==> r[i] == pairs[i].0
  {
    seq(|pairs|, i requires 0 <= i < |pairs| => pairs[i].0)
  }

  /** `f` applied to every element, in order. */
  function Apply<A, B>(f: A -> B, xs: seq<A>): (r: seq<B>)
    ensures |r| == |xs| && forall i :: 0 <= i < |xs| ==> r[i] == f(xs[i])
  {
    seq(|xs|, i requires 0 <= i < |xs| => f(xs[i]))
  }

  lemma ApplySnoc<A, B>(f: A -> B, xs: seq<A>)
    requires |xs| > 0
    ensures Apply(f, xs) == Apply(f, xs[..|xs| - 1]) + [f(xs[|xs| - 1])]
  {
    var a := Apply(f, xs);
    var b := Apply(f, xs[..|xs| - 1]) + [f(xs[|xs| - 1])];
    forall i | 0 <= i < |a|
      ensures a[i] == b[i]
    {
      if i < |xs| - 1 {
        assert xs[..|xs| - 1][i] == xs[i];
      }
    }
  }

  lemma LastSplit<T>(s: seq<T>)
    requires |s| > 0
    ensures s == s[..|s| - 1] + [s[|s| - 1]]
  {
  }

  lemma AppendLast<T>(a: seq<T>, b: seq<T>)
    requires |b| > 0
    ensures a + b[..|b| - 1] + [b[|b| - 1]] == a + b
  {
    LastSplit(b);
  }

  lemma AppendNone<T>(a: seq<T>, b: seq<T>)
    requires |b| == 0
    ensures a + b == a
  {
  }

  lemma AppendDropLast<T>(a: seq<T>, b: seq<T>)
    requires |b| > 0
    ensures (a + b)[..|a + b| - 1] == a + b[..|b| - 1]
  {
  }

  lemma AppendTake<T>(a: seq<T>, b: seq<T>)
    ensures (a + b)[..|a|] == a
  {
  }

  lemma TakeTake<T>(s: seq<T>, m: nat, k: nat)
    requires k <= m <= |s|
    ensures s[..m][..k] == s[..k]
  {
  }

  lemma TakeAll<T>(s: seq<T>)
    ensures s[..|s|] == s
  {
  }

  lemma AppendTakeFrom<T>(a: seq<T>, b: seq<T>, k: nat)
    requires k <= |b|
    ensures (a + b)[..|a| + k] == a + b[..k]
  {
  }

  lemma AppendTakeNext<T>(a: seq<T>, b: seq<T>, j: nat)
    requires j < |b|
    ensures a + b[..j + 1] == a + b[..j] + [b[j]]
  {
  }

  lemma MultisetSameLength<T>(a: seq<T>, b: seq<T>)
    requires multiset(a) == multiset(b)
    ensures |a| == |b|
  {
    assert |a| == |multiset(a)| && |b| == |multiset(b)|;
  }

  lemma MultisetTail<T>(a: seq<T>)
    requires |a| > 0
    ensures multiset(a[1..]) == multiset(a) - multiset{a[0]}
  {
    assert a == [a[0]] + a[1..];
  }

  lemma ConsEqual<T>(a: seq<T>, b: seq<T>)
    requires |a| > 0 && |b| > 0 && a[0] == b[0] && a[1..] == b[1..]
    ensures a == b
  {
    assert a == [a[0]] + a[1..] && b == [b[0]] + b[1..];
  }

  lemma AppendAssoc<T>(a: seq<T>, b: seq<T>, c: seq<T>)
    ensures (a + b) + c == a + (b + c)
  {
  }

  lemma TakeNext<T>(s: seq<T>, i: nat)
    requires i < |s|
    ensures s[..i + 1] == s[..i] + [s[i]]
  {
  }

  lemma InHeadOrTail<T>(xs: seq<T>, x: T)
    requires |xs| > 0
    ensures x in xs <==> x == xs[0] || x in xs[1..]
  {
    assert xs == [xs[0]] + xs[1..];
  }
}
