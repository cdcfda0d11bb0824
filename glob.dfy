/** Shell-style pattern matching as Python's `fnmatch.fnmatchcase` does it:
    `*` matches any run of characters, `?` any one character, `[...]` a
    character class (`!` negates it, `a-z` is a range), and every other
    character itself. A `[` without a closing `]` is an ordinary character. */
module Glob {
  import opened Wrappers

  /** Index in `p` of the `]` closing the class opened by `p[0] == '['`. A
      `!` and then a `]` right after the bracket belong to the class. */
  function ClassEnd(p: string): (r: Option<nat>)
    requires |p| > 0 && p[0] == '['
    ensures r.Some? ==> 1 <= r.value < |p| && p[r.value] == ']'
  {
    var j0 := if 1 < |p| && p[1] == '!' then 2 else 1;
    var j1 := if j0 < |p| && p[j0] == ']' then j0 + 1 else j0;
    CloseFrom(p, j1)
  }

  function CloseFrom(p: string, j: nat): (r: Option<nat>)
    ensures r.Some? ==> j <= r.value < |p| && p[r.value] == ']'
    decreases |p| - j
  {
    if j >= |p| then None
    else if p[j] == ']' then Some(j)
    else CloseFrom(p, j + 1)
  }

  /** Membership of `c` in the class written `body` (without the brackets). */
  predicate InClass(c: char, body: string) {
    if |body| > 0 && body[0] == '!' then !InItems(c, body[1..]) else InItems(c, body)
  }

  predicate InItems(c: char, items: string)
    decreases |items|
  {
    if |items| == 0 then false
    else if |items| >= 3 && items[1] == '-' then
      (items[0] <= c <= items[2]) || InItems(c, items[3..])
    else
      items[0] == c || InItems(c, items[1..])
  }

  /** `fnmatch.fnmatchcase(s, p)`. */
  predicate Match(s: string, p: string)
    decreases |s| + |p|
  {
    if |p| == 0 then |s| == 0
    else if p[0] == '*' then Match(s, p[1..]) || (|s| > 0 && Match(s[1..], p))
    else if p[0] == '?' then |s| > 0 && Match(s[1..], p[1..])
    else if p[0] == '[' && ClassEnd(p).Some? then
      var j := ClassEnd(p).value;
      |s| > 0 && InClass(s[0], p[1..j]) && Match(s[1..], p[j + 1..])
    else |s| > 0 && s[0] == p[0] && Match(s[1..], p[1..])
  }

  /** `*` matches every string. */
  lemma {:induction false} StarMatchesAll(s: string)
    ensures Match(s, "*")
    decreases |s|
  {
    if |s| > 0 {
      StarMatchesAll(s[1..]);
    }
  }

  /** A pattern made only of ordinary characters matches exactly itself. */
  predicate Literal(p: string) {
    forall i :: 0 <= i < |p| ==> p[i] != '*' && p[i] != '?' && p[i] != '['
  }

  lemma {:induction false} LiteralMatch(s: string, p: string)
    requires Literal(p)
    ensures Match(s, p) <==> s == p
    decreases |p|
  {
    if |p| > 0 && |s| > 0 {
      LiteralMatch(s[1..], p[1..]);
      assert s == [s[0]] + s[1..] && p == [p[0]] + p[1..];
    }
  }

  /** `any(fnmatchcase(value, pattern) for pattern in patterns)`. */
  predicate AnyMatch(value: string, patterns: seq<string>) {
    exists i :: 0 <= i < |patterns| && Match(value, patterns[i])
  }

  /** `GlobMatcher.select_names`: the names matched by some pattern, in their
      input order. */
  function SelectNames(names: seq<string>, patterns: seq<string>): (r: seq<string>)
    ensures |r| <= |names|
    ensures forall x :: x in r <==> x in names && AnyMatch(x, patterns)
    decreases |names|
  {
    if |names| == 0 then []
    else if AnyMatch(names[0], patterns) then [names[0]] + SelectNames(names[1..], patterns)
    else SelectNames(names[1..], patterns)
  }

  /** Filtering keeps the relative order: the result is a subsequence. */
  predicate IsSubsequence<T(==)>(a: seq<T>, b: seq<T>)
    decreases |b|
  {
    |a| == 0 || (|b| > 0 && ((a[0] == b[0] && IsSubsequence(a[1..], b[1..])) || IsSubsequence(a, b[1..])))
  }

  lemma {:induction false} SelectNamesSubsequence(names: seq<string>, patterns: seq<string>)
    ensures IsSubsequence(SelectNames(names, patterns), names)
    decreases |names|
  {
    if |names| > 0 {
      SelectNamesSubsequence(names[1..], patterns);
    }
  }

  /** A pattern list containing `*` selects every name. */
  lemma {:induction false} SelectAllWithStar(names: seq<string>, patterns: seq<string>)
    requires "*" in patterns
    ensures SelectNames(names, patterns) == names
    decreases |names|
  {
    if |names| > 0 {
      var k :| 0 <= k < |patterns| && patterns[k] == "*";
      StarMatchesAll(names[0]);
      assert Match(names[0], patterns[k]);
      SelectAllWithStar(names[1..], patterns);
    }
  }
}
