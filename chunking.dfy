/** Consecutive slices of a list, as produced by
    `items[i : i + size] for i in range(0, len(items), size)`. */
module Chunking {

  /** The slices of `s` of length `n`, the last one possibly shorter. */
  function Chunks<T>(s: seq<T>, n: nat): seq<seq<T>>
    requires n > 0
    decreases |s|
  {
    if |s| == 0 then []
    else if |s| <= n then [s]
    else [s[..n]] + Chunks(s[n..], n)
  }

  /** Concatenation of a list of lists. */
  function Flatten<T>(ss: seq<seq<T>>): seq<T>
    decreases |ss|
  {
    if |ss| == 0 then [] else ss[0] + Flatten(ss[1..])
  }

  lemma {:induction false} FlattenAppend<T>(a: seq<seq<T>>, b: seq<seq<T>>)
    ensures Flatten(a + b) == Flatten(a) + Flatten(b)
    decreases |a|
  {
    if |a| == 0 {
      assert a + b == b;
    } else {
      assert (a + b)[0] == a[0];
      assert (a + b)[1..] == a[1..] + b;
      FlattenAppend(a[1..], b);
    }
  }

  /** The chunks concatenate back to the input. */
  lemma {:induction false} ChunksFlatten<T>(s: seq<T>, n: nat)
    requires n > 0
    ensures Flatten(Chunks(s, n)) == s
    decreases |s|
  {
    if |s| > n {
      ChunksFlatten(s[n..], n);
      assert s == s[..n] + s[n..];
    }
  }

  /** Every chunk is non-empty and at most `n` long; all but the last are
      exactly `n` long. */
  lemma {:induction false} ChunksSizes<T>(s: seq<T>, n: nat)
    requires n > 0
    ensures forall i :: 0 <= i < |Chunks(s, n)| ==> 0 < |Chunks(s, n)[i]| <= n
    ensures forall i :: 0 <= i < |Chunks(s, n)| - 1 ==> |Chunks(s, n)[i]| == n
    decreases |s|
  {
    if |s| > n {
      var rest := Chunks(s[n..], n);
      ChunksSizes(s[n..], n);
      var c := Chunks(s, n);
      assert c == [s[..n]] + rest;
      forall i | 0 < i < |c| ensures 0 < |c[i]| <= n && (i < |c| - 1 ==> |c[i]| == n) {
        assert c[i] == rest[i - 1];
      }
    }
  }

  /** There are `ceil(|s| / n)` chunks. */
  lemma {:induction false} ChunksCount<T>(s: seq<T>, n: nat)
    requires n > 0
    ensures |Chunks(s, n)| * n >= |s| > (|Chunks(s, n)| - 1) * n
    decreases |s|
  {
    if |s| > n {
      ChunksCount(s[n..], n);
    }
  }

  /** The chunk that starts at offset `i` of `s`, continuing the list of
      chunks already cut from `s[..i]`. */
  lemma ChunksStep<T>(s: seq<T>, n: nat, i: nat)
    requires n > 0 && i < |s|
    ensures var j := if i + n < |s| then i + n else |s|;
      Chunks(s[i..], n) == [s[i..j]] + Chunks(s[j..], n)
  {
    var j := if i + n < |s| then i + n else |s|;
    if i + n < |s| {
      assert s[i..][..n] == s[i..j];
      assert s[i..][n..] == s[j..];
    } else {
      assert s[i..j] == s[i..];
      assert s[j..] == [];
    }
  }

  /** One more chunk consumed: the flattened prefix grows by that chunk. */
  lemma FlattenPrefixStep<T>(ss: seq<seq<T>>, c: nat)
    requires c < |ss|
    ensures Flatten(ss[..c + 1]) == Flatten(ss[..c]) + ss[c]
  {
    assert ss[..c + 1] == ss[..c] + [ss[c]];
    FlattenAppend(ss[..c], [ss[c]]);
    assert [ss[c]][1..] == [];
  }

  predicate AllFull<T>(cs: seq<seq<T>>, n: nat) {
    forall i :: 0 <= i < |cs| ==> |cs[i]| == n
  }

  /** Full chunks followed by a non-empty remainder of at most `n` items are
      exactly what `Chunks` cuts from their concatenation. */
  lemma {:induction false} ChunksOfFull<T>(cs: seq<seq<T>>, t: seq<T>, n: nat)
    requires n > 0 && AllFull(cs, n) && |t| <= n
    ensures |t| > 0 ==> Chunks(Flatten(cs) + t, n) == cs + [t]
    ensures |t| == 0 ==> Chunks(Flatten(cs), n) == cs
    decreases |cs|
  {
    if |cs| == 0 {
      assert Flatten(cs) + t == t;
    } else {
      ChunksOfFull(cs[1..], t, n);
      var rest := Flatten(cs[1..]);
      assert Flatten(cs) == cs[0] + rest;
      assert (cs[0] + rest + t)[..n] == cs[0];
      assert (cs[0] + rest + t)[n..] == rest + t;
      assert (cs[0] + rest)[..n] == cs[0];
      assert (cs[0] + rest)[n..] == rest;
      assert cs == [cs[0]] + cs[1..];
      if |t| == 0 && |cs| == 1 {
        assert rest == [];
      }
    }
  }
}
