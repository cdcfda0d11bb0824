/** Python `str` operations the core relies on, over `seq<char>`:
    strip, startswith/endswith, find/rfind, split, join, replace, ASCII case
    mapping, and `int()`/`str()` on decimal integers. */
module Text {
  import opened Wrappers

  /** The code points Python's `str.isspace()` accepts, which `str.strip()` and
      `str.split()` without arguments remove. */
  const Whitespace: set<char> := {
    ' ', '\t', '\n', '\r', '\U{0B}', '\U{0C}', '\U{1C}', '\U{1D}', '\U{1E}', '\U{1F}',
    '\U{85}', '\U{A0}', '\U{1680}', '\U{2000}', '\U{2001}', '\U{2002}', '\U{2003}',
    '\U{2004}', '\U{2005}', '\U{2006}', '\U{2007}', '\U{2008}', '\U{2009}', '\U{200A}',
    '\U{2028}', '\U{2029}', '\U{202F}', '\U{205F}', '\U{3000}'
  }

  // ---------------------------------------------------------------- strip

  /** `s.lstrip(chars)`: drops the longest prefix made of `cs`. */
  function LStrip(s: string, cs: set<char>): (r: string)
    ensures |r| <= |s| && r == s[|s| - |r|..]
    ensures forall i :: 0 <= i < |s| - |r| ==> s[i] in cs
    ensures r == [] || r[0] !in cs
    decreases |s|
  {
    if |s| > 0 && s[0] in cs then LStrip(s[1..], cs) else s
  }

  /** `s.rstrip(chars)`: drops the longest suffix made of `cs`. */
  function RStrip(s: string, cs: set<char>): (r: string)
    ensures |r| <= |s| && r == s[..|r|]
    ensures forall i :: |r| <= i < |s| ==> s[i] in cs
    ensures r == [] || r[|r| - 1] !in cs
    decreases |s|
  {
    if |s| > 0 && s[|s| - 1] in cs then RStrip(s[..|s| - 1], cs) else s
  }

  /** `s.strip(chars)`. */
  function StripChars(s: string, cs: set<char>): string {
    RStrip(LStrip(s, cs), cs)
  }

  /** One stripped character in front of a kept one. */
  lemma LStripOne(c: char, t: string, cs: set<char>)
    requires c in cs && (t == [] || t[0] !in cs)
    ensures LStrip([c] + t, cs) == t
  {
    assert ([c] + t)[1..] == t;
  }

  /** One stripped character after a kept one. */
  lemma RStripOne(t: string, c: char, cs: set<char>)
    requires c in cs && (t == [] || t[|t| - 1] !in cs)
    ensures RStrip(t + [c], cs) == t
  {
    assert (t + [c])[..|t|] == t;
  }

  /** `s.strip()`. */
  function Strip(s: string): string {
    StripChars(s, Whitespace)
  }

  /** `s.rstrip()`. */
  function RStripSpace(s: string): string {
    RStrip(s, Whitespace)
  }

  /** `s.lstrip()`. */
  function LStripSpace(s: string): string {
    LStrip(s, Whitespace)
  }

  /** `not s.strip()`: the string is empty or all whitespace. */
  predicate IsBlank(s: string) {
    Strip(s) == []
  }

  lemma {:induction false} LStripAllIn(s: string, cs: set<char>)
    requires forall i :: 0 <= i < |s| ==> s[i] in cs
    ensures LStrip(s, cs) == []
    decreases |s|
  {
    if |s| > 0 {
      LStripAllIn(s[1..], cs);
    }
  }

  /** A string is blank exactly when every character is whitespace. */
  lemma BlankIff(s: string)
    ensures IsBlank(s) <==> forall i :: 0 <= i < |s| ==> s[i] in Whitespace
  {
    var l := LStrip(s, Whitespace);
    if forall i :: 0 <= i < |s| ==> s[i] in Whitespace {
      LStripAllIn(s, Whitespace);
    }
    assert IsBlank(s) ==> l == [];
  }

  /** Stripping twice is stripping once. */
  lemma StripCharsIdempotent(s: string, cs: set<char>)
    ensures StripChars(StripChars(s, cs), cs) == StripChars(s, cs)
  {
    var r := StripChars(s, cs);
    assert LStrip(r, cs) == r by {
      if |r| > 0 {
        var l := LStrip(s, cs);
        assert r[0] == l[0];
      }
    }
  }

  /** Neither end of `s` is one of `cs`. */
  predicate Trimmed(s: string, cs: set<char>) {
    s == [] || (s[0] !in cs && s[|s| - 1] !in cs)
  }

  /** What `strip` leaves has no `cs` at either end. */
  lemma StripCharsTrimmed(s: string, cs: set<char>)
    ensures Trimmed(StripChars(s, cs), cs)
  {
    var l := LStrip(s, cs);
    var r := RStrip(l, cs);
    if |r| > 0 {
      assert r[0] == l[0];
    }
  }

  // ---------------------------------------------------------------- prefix / suffix

  /** `s.startswith(p)`. */
  predicate StartsWith(s: string, p: string) {
    |p| <= |s| && s[..|p|] == p
  }

  /** `s.endswith(p)`. */
  predicate EndsWith(s: string, p: string) {
    |p| <= |s| && s[|s| - |p|..] == p
  }

  // ---------------------------------------------------------------- find

  /** `sub` occurs in `s` at index `i`. */
  predicate OccursAt(s: string, sub: string, i: int) {
    0 <= i && i + |sub| <= |s| && s[i..i + |sub|] == sub
  }

  function FindFrom(s: string, sub: string, i: nat): (r: Option<nat>)
    requires i <= |s|
    ensures r.Some? ==> i <= r.value && OccursAt(s, sub, r.value)
    decreases |s| - i
  {
    if OccursAt(s, sub, i) then Some(i)
    else if i == |s| then None
    else FindFrom(s, sub, i + 1)
  }

  lemma {:induction false} FindFromFirst(s: string, sub: string, i: nat, j: int)
    requires i <= |s| && i <= j && OccursAt(s, sub, j)
    ensures FindFrom(s, sub, i).Some? && FindFrom(s, sub, i).value <= j
    decreases |s| - i
  {
    if !OccursAt(s, sub, i) && i < |s| {
      FindFromFirst(s, sub, i + 1, j);
    }
  }

  /** `s.find(sub)`, with `None` for Python's `-1`. */
  function Find(s: string, sub: string): (r: Option<nat>)
    ensures r.Some? ==> OccursAt(s, sub, r.value)
  {
    FindFrom(s, sub, 0)
  }

  /** `find` reports the first occurrence, and `None` only when there is none. */
  lemma FindFirst(s: string, sub: string, j: int)
    ensures OccursAt(s, sub, j) ==> Find(s, sub).Some? && Find(s, sub).value <= j
  {
    if OccursAt(s, sub, j) {
      FindFromFirst(s, sub, 0, j);
    }
  }

  /** `sub not in s` exactly when `sub` occurs nowhere in `s`. */
  lemma NotContains(s: string, sub: string)
    ensures !Contains(s, sub) <==> forall j :: !OccursAt(s, sub, j)
  {
    forall j ensures !Contains(s, sub) ==> !OccursAt(s, sub, j) {
      FindFirst(s, sub, j);
    }
  }

  /** A string that lacks the first character of `sub` does not contain it. */
  lemma MissingFirstChar(s: string, sub: string)
    requires |sub| > 0 && sub[0] !in s
    ensures !Contains(s, sub)
  {
    forall j | 0 <= j && j + |sub| <= |s| ensures !OccursAt(s, sub, j) {
      assert s[j..j + |sub|][0] == s[j];
    }
    NotContains(s, sub);
  }

  function RFindBelow(s: string, sub: string, i: nat): (r: Option<nat>)
    requires i <= |s|
    ensures r.Some? ==> r.value <= i && OccursAt(s, sub, r.value)
    decreases i
  {
    if OccursAt(s, sub, i) then Some(i)
    else if i == 0 then None
    else RFindBelow(s, sub, i - 1)
  }

  lemma {:induction false} RFindBelowLast(s: string, sub: string, i: nat, j: int)
    requires i <= |s| && j <= i && OccursAt(s, sub, j)
    ensures RFindBelow(s, sub, i).Some? && j <= RFindBelow(s, sub, i).value
    decreases i
  {
    if !OccursAt(s, sub, i) && i > 0 {
      RFindBelowLast(s, sub, i - 1, j);
    }
  }

  /** `s.rfind(sub)`, with `None` for `-1`. */
  function RFind(s: string, sub: string): (r: Option<nat>)
    ensures r.Some? ==> OccursAt(s, sub, r.value)
  {
    RFindBelow(s, sub, |s|)
  }

  /** `rfind` reports the last occurrence, and `None` only when there is none. */
  lemma RFindLast(s: string, sub: string, j: int)
    requires OccursAt(s, sub, j)
    ensures RFind(s, sub).Some? && j <= RFind(s, sub).value
  {
    RFindBelowLast(s, sub, |s|, j);
  }

  /** `s.rfind(c)` for a single character, with `None` for `-1`. */
  function LastIndexOf(s: string, c: char): (r: Option<nat>)
    ensures r.Some? ==> r.value < |s| && s[r.value] == c && forall j :: r.value < j < |s| ==> s[j] != c
    ensures r.None? ==> forall j :: 0 <= j < |s| ==> s[j] != c
    decreases |s|
  {
    if |s| == 0 then None
    else if s[|s| - 1] == c then Some(|s| - 1)
    else LastIndexOf(s[..|s| - 1], c)
  }

  /** `sub in s`. */
  predicate Contains(s: string, sub: string) {
    Find(s, sub).Some?
  }

  // ---------------------------------------------------------------- split / join

  /** `s.split(sep)` for a non-empty separator. */
  function Split(s: string, sep: string): (parts: seq<string>)
    requires |sep| > 0
    ensures |parts| >= 1
    decreases |s|
  {
    match Find(s, sep)
    case None => [s]
    case Some(i) => [s[..i]] + Split(s[i + |sep|..], sep)
  }

  /** `sep.join(parts)`. */
  function Join(parts: seq<string>, sep: string): string
  {
    if |parts| == 0 then []
    else if |parts| == 1 then parts[0]
    else parts[0] + sep + Join(parts[1..], sep)
  }

  /** The text around an occurrence: what precedes it, `sub`, what follows. */
  lemma AroundOccurrence(s: string, sub: string, i: nat)
    requires OccursAt(s, sub, i)
    ensures s == s[..i] + sub + s[i + |sub|..]
  {
    assert s == s[..i] + s[i..i + |sub|] + s[i + |sub|..];
  }

  /** One step of `split`: the first part, then the parts of what follows
      the separator. */
  lemma SplitAt(s: string, sep: string, i: nat)
    requires |sep| > 0 && Find(s, sep) == Some(i)
    ensures Split(s, sep) == [s[..i]] + Split(s[i + |sep|..], sep)
  {
  }

  /** Joining a part in front of at least one more adds it and a separator. */
  lemma JoinCons(head: string, tail: seq<string>, sep: string)
    requires |tail| >= 1
    ensures Join([head] + tail, sep) == head + sep + Join(tail, sep)
  {
    assert ([head] + tail)[1..] == tail;
  }

  /** `s.split(sep)` loses nothing: joining the parts back gives `s`. */
  lemma {:induction false} JoinSplit(s: string, sep: string)
    requires |sep| > 0
    ensures Join(Split(s, sep), sep) == s
    decreases |s|
  {
    var f := Find(s, sep);
    if f.Some? {
      var rest := s[f.value + |sep|..];
      SplitAt(s, sep, f.value);
      JoinCons(s[..f.value], Split(rest, sep), sep);
      AroundOccurrence(s, sep, f.value);
      JoinSplit(rest, sep);
    }
  }

  /** No part produced by `split(sep)` contains `sep`. */
  lemma {:induction false} SplitPartsAvoidSep(s: string, sep: string)
    requires |sep| > 0
    ensures forall p :: p in Split(s, sep) ==> !Contains(p, sep)
    decreases |s|
  {
    match Find(s, sep)
    case None =>
    case Some(i) =>
      var rest := s[i + |sep|..];
      SplitPartsAvoidSep(rest, sep);
      SplitAt(s, sep, i);
      PrefixAvoids(s, sep, i);
  }

  /** The text before the first occurrence of `sub` does not contain it. */
  lemma PrefixAvoids(s: string, sub: string, i: nat)
    requires |sub| > 0 && Find(s, sub) == Some(i)
    ensures !Contains(s[..i], sub)
  {
    var head := s[..i];
    forall j ensures !OccursAt(head, sub, j) {
      FindFirst(s, sub, j);
      if 0 <= j && j + |sub| <= |head| {
        assert head[j..j + |sub|] == s[j..j + |sub|];
      }
    }
    NotContains(head, sub);
  }

  /** If no character of `pat` is a character of the non-empty `sep` and no
      part contains `pat`, the joined string does not contain `pat` either. */
  lemma {:induction false} JoinAvoids(parts: seq<string>, sep: string, pat: string)
    requires |pat| > 0 && |sep| > 0
    requires forall c :: c in pat ==> c !in sep
    requires forall p :: p in parts ==> !Contains(p, pat)
    ensures !Contains(Join(parts, sep), pat)
    decreases |parts|
  {
    if |parts| == 1 {
      assert parts[0] in parts;
    } else if |parts| >= 2 {
      var p0 := parts[0];
      var rest := Join(parts[1..], sep);
      JoinAvoids(parts[1..], sep, pat);
      var s := Join(parts, sep);
      assert s == p0 + sep + rest;
      assert p0 in parts;
      NotContains(p0, pat);
      NotContains(rest, pat);
      forall j | 0 <= j && j + |pat| <= |s| ensures !OccursAt(s, pat, j) {
        if j + |pat| <= |p0| {
          assert p0[j..j + |pat|] == s[j..j + |pat|];
          assert !OccursAt(p0, pat, j);
        } else if j < |p0| + |sep| {
          var q := if j < |p0| then |p0| else j;
          assert s[q] == sep[q - |p0|] && sep[q - |p0|] in sep;
          assert s[j..j + |pat|][q - j] == s[q];
          assert pat[q - j] in pat;
        } else {
          var k := j - |p0| - |sep|;
          assert rest[k..k + |pat|] == s[j..j + |pat|];
          assert !OccursAt(rest, pat, k);
        }
      }
      NotContains(s, pat);
    }
  }

  /** Splitting a join undoes it when the separator's first character occurs
      in no part. */
  lemma {:induction false} SplitJoin(parts: seq<string>, sep: string)
    requires |sep| > 0 && |parts| >= 1
    requires forall p :: p in parts ==> sep[0] !in p
    ensures Split(Join(parts, sep), sep) == parts
    decreases |parts|
  {
    var p0 := parts[0];
    assert p0 in parts;
    MissingFirstChar(p0, sep);
    if |parts| > 1 {
      var rest := Join(parts[1..], sep);
      var s := p0 + sep + rest;
      assert s == Join(parts, sep);
      assert s[|p0|..|p0| + |sep|] == sep;
      FindFirst(s, sep, |p0|);
      var k := Find(s, sep).value;
      assert s[k..k + |sep|][0] == s[k];
      assert k == |p0|;
      assert s[|p0| + |sep|..] == rest;
      SplitJoin(parts[1..], sep);
      assert Split(s, sep) == [s[..|p0|]] + Split(rest, sep);
      assert s[..|p0|] == p0;
    }
  }

  /** `s.replace(pat, rep)` for a non-empty `pat`. */
  function ReplaceAll(s: string, pat: string, rep: string): string
    requires |pat| > 0
  {
    Join(Split(s, pat), rep)
  }

  /** Replacing a pattern that does not occur changes nothing. */
  lemma ReplaceAbsent(s: string, pat: string, rep: string)
    requires |pat| > 0 && !Contains(s, pat)
    ensures ReplaceAll(s, pat, rep) == s
  {
  }

  /** After `s.replace(pat, rep)` no `pat` is left, provided `rep` shares no
      character with `pat`. */
  lemma ReplaceRemoves(s: string, pat: string, rep: string)
    requires |pat| > 0 && |rep| > 0
    requires forall c :: c in pat ==> c !in rep
    ensures !Contains(ReplaceAll(s, pat, rep), pat)
  {
    SplitPartsAvoidSep(s, pat);
    JoinAvoids(Split(s, pat), rep, pat);
  }

  /** `s.replace(a, b).replace(b, a) == s` when `b` is a fresh single-character
      pattern: no character `b[0]` appears in `s`. */
  lemma ReplaceRoundTrip(s: string, a: string, b: string)
    requires |a| > 0 && |b| > 0
    requires b[0] !in s
    ensures ReplaceAll(ReplaceAll(s, a, b), b, a) == s
  {
    var parts := Split(s, a);
    JoinSplit(s, a);
    forall p | p in parts ensures b[0] !in p {
      PartOfSplitIn(s, a, p);
    }
    SplitJoin(parts, b);
  }

  /** Every character of a part of `split(sep)` is a character of the input. */
  lemma {:induction false} PartOfSplitIn(s: string, sep: string, p: string)
    requires |sep| > 0 && p in Split(s, sep)
    ensures forall c :: c in p ==> c in s
    decreases |s|
  {
    match Find(s, sep)
    case None =>
    case Some(i) =>
      if p != s[..i] {
        PartOfSplitIn(s[i + |sep|..], sep, p);
      }
  }

  /** `s.replace(pat, rep, 1)`: only the first occurrence is replaced. */
  function ReplaceFirst(s: string, pat: string, rep: string): (r: string)
    ensures Find(s, pat).None? ==> r == s
    ensures Find(s, pat).Some? ==>
      var i := Find(s, pat).value;
      r == s[..i] + rep + s[i + |pat|..]
  {
    match Find(s, pat)
    case None => s
    case Some(i) => s[..i] + rep + s[i + |pat|..]
  }

  // ---------------------------------------------------------------- case

  /** `str.lower()` on ASCII letters; other characters are kept. */
  function LowerChar(c: char): char {
    if 'A' <= c <= 'Z' then (c as int + 32) as char else c
  }

  /** `str.upper()` on ASCII letters; other characters are kept. */
  function UpperChar(c: char): char {
    if 'a' <= c <= 'z' then (c as int - 32) as char else c
  }

  function Lower(s: string): (r: string)
    ensures |r| == |s| && forall i :: 0 <= i < |s| ==> r[i] == LowerChar(s[i])
  {
    seq(|s|, i requires 0 <= i < |s| => LowerChar(s[i]))
  }

  function Upper(s: string): (r: string)
    ensures |r| == |s| && forall i :: 0 <= i < |s| ==> r[i] == UpperChar(s[i])
  {
    seq(|s|, i requires 0 <= i < |s| => UpperChar(s[i]))
  }

  // ---------------------------------------------------------------- integers

  predicate IsDigit(c: char) { '0' <= c <= '9' }

  function DigitValue(c: char): nat
    requires IsDigit(c)
  {
    c as int - '0' as int
  }

  function DigitChar(d: nat): (c: char)
    requires d < 10
    ensures IsDigit(c) && DigitValue(c) == d
  {
    ('0' as int + d) as char
  }

  /** `str(n)` for `n >= 0`. */
  function NatToString(n: nat): (r: string)
    ensures |r| >= 1 && forall i :: 0 <= i < |r| ==> IsDigit(r[i])
    decreases n
  {
    if n < 10 then [DigitChar(n)] else NatToString(n / 10) + [DigitChar(n % 10)]
  }

  /** `str(n)` for any Python `int`. */
  function IntToString(n: int): string {
    if n < 0 then "-" + NatToString(-n) else NatToString(n)
  }

  /** The value of a string of decimal digits, most significant first. */
  function DigitsValue(s: string): nat
    requires forall i :: 0 <= i < |s| ==> IsDigit(s[i])
    decreases |s|
  {
    if |s| == 0 then 0 else DigitsValue(s[..|s| - 1]) * 10 + DigitValue(s[|s| - 1])
  }

  lemma {:induction false} DigitsOfNat(n: nat)
    ensures DigitsValue(NatToString(n)) == n
    decreases n
  {
    if n >= 10 {
      var s := NatToString(n);
      DigitsOfNat(n / 10);
      assert s[..|s| - 1] == NatToString(n / 10);
    }
  }

  /** Python's decimal digit grammar: digits, optionally separated by single
      underscores (`1_000`). */
  predicate DigitGroups(s: string) {
    |s| > 0 && IsDigit(s[0]) && IsDigit(s[|s| - 1])
    && (forall i :: 0 <= i < |s| ==> IsDigit(s[i]) || s[i] == '_')
    && (forall i :: 0 <= i < |s| - 1 ==> !(s[i] == '_' && s[i + 1] == '_'))
  }

  function DropUnderscores(s: string): (r: string)
    requires forall i :: 0 <= i < |s| ==> IsDigit(s[i]) || s[i] == '_'
    ensures forall i :: 0 <= i < |r| ==> IsDigit(r[i])
    ensures (forall i :: 0 <= i < |s| ==> IsDigit(s[i])) ==> r == s
    decreases |s|
  {
    if |s| == 0 then []
    else (if s[0] == '_' then [] else [s[0]]) + DropUnderscores(s[1..])
  }

  /** `int(s)` on a `str` (base 10), restricted to ASCII digits: surrounding
      whitespace, an optional sign and underscore-separated digits `0`-`9`.
      `None` for every other string, including ones Python accepts because
      they use non-ASCII decimal digits (such as `"２"`). */
  function ParseInt(s: string): (r: Option<int>)
  {
    ParseSigned(Strip(s))
  }

  /** An optional sign followed by the digit grammar. */
  function ParseSigned(t: string): (r: Option<int>)
  {
    var neg := |t| > 0 && t[0] == '-';
    var body := if |t| > 0 && (t[0] == '-' || t[0] == '+') then t[1..] else t;
    if DigitGroups(body) then
      var v: int := DigitsValue(DropUnderscores(body));
      Some(if neg then -v else v)
    else None
  }

  /** A string that neither starts nor ends with whitespace is its own strip. */
  lemma StripUnchanged(s: string)
    requires s == [] || (s[0] !in Whitespace && s[|s| - 1] !in Whitespace)
    ensures Strip(s) == s
  {
  }

  /** ASCII letters are not whitespace, so case mapping keeps a
      character's whitespace status. */
  lemma LowerCharSpace(c: char)
    ensures LowerChar(c) in Whitespace <==> c in Whitespace
  {
    if 'A' <= c <= 'Z' {
      assert c !in Whitespace && LowerChar(c) !in Whitespace;
    }
  }

  lemma LowerIdempotent(s: string)
    ensures Lower(Lower(s)) == Lower(s)
  {
  }

  /** Lower-casing a stripped string and stripping it again changes
      nothing: ASCII case mapping neither makes nor removes whitespace. */
  lemma LowerStripNormal(s: string)
    ensures Lower(Strip(Lower(Strip(s)))) == Lower(Strip(s))
  {
    var t := Strip(s);
    var n := Lower(t);
    StripCharsTrimmed(s, Whitespace);
    if |n| > 0 {
      LowerCharSpace(t[0]);
      LowerCharSpace(t[|t| - 1]);
    }
    StripUnchanged(n);
    LowerIdempotent(t);
  }

  /** Digits and the minus sign are not whitespace. */
  lemma DigitNotSpace(c: char)
    requires IsDigit(c) || c == '-'
    ensures c !in Whitespace
  {
  }

  /** Plain digits are their own digit grammar and carry no underscore. */
  lemma DigitsAreGroups(digits: string)
    requires |digits| >= 1 && forall i :: 0 <= i < |digits| ==> IsDigit(digits[i])
    ensures DigitGroups(digits) && DropUnderscores(digits) == digits
  {
  }

  lemma ParseSignedMinus(t: string)
    requires |t| > 0 && t[0] == '-' && DigitGroups(t[1..])
    ensures ParseSigned(t) == Some(-(DigitsValue(DropUnderscores(t[1..])) as int))
  {
  }

  lemma ParseSignedPlain(t: string)
    requires DigitGroups(t)
    ensures ParseSigned(t) == Some(DigitsValue(DropUnderscores(t)) as int)
  {
  }

  /** `int(str(n)) == n`. */
  lemma ParseIntToString(n: int)
    ensures ParseInt(IntToString(n)) == Some(n)
  {
    var m: nat := if n < 0 then -n else n;
    var digits := NatToString(m);
    DigitsOfNat(m);
    DigitsAreGroups(digits);
    var s := IntToString(n);
    assert s[|s| - 1] == digits[|digits| - 1];
    DigitNotSpace(s[0]);
    DigitNotSpace(s[|s| - 1]);
    StripUnchanged(s);
    if n < 0 {
      assert s[1..] == digits;
      ParseSignedMinus(s);
    } else {
      ParseSignedPlain(s);
    }
  }

  /** `str(n)` never contains whitespace, so surrounding text can be split off it. */
  lemma IntToStringNoSpace(n: int)
    ensures forall i :: 0 <= i < |IntToString(n)| ==> IntToString(n)[i] !in Whitespace
  {
  }

  // ---------------------------------------------------------------- hex

  type Byte = b: int | 0 <= b < 256

  predicate IsLowerHex(c: char) {
    '0' <= c <= '9' || 'a' <= c <= 'f'
  }

  function HexDigitValue(c: char): (v: nat)
    requires IsLowerHex(c)
    ensures v < 16
  {
    if c <= '9' then c as int - '0' as int else c as int - 'a' as int + 10
  }

  /** The lower-case hexadecimal digit of `v`. */
  function HexChar(v: nat): (c: char)
    requires v < 16
    ensures IsLowerHex(c) && HexDigitValue(c) == v
  {
    if v < 10 then ('0' as int + v) as char else ('a' as int + v - 10) as char
  }

  /** `bytes.hex()`, which `secrets.token_hex(n)` returns for `n` random bytes:
      two lower-case hexadecimal digits per byte. */
  function HexEncode(bytes: seq<Byte>): (r: string)
    ensures |r| == 2 * |bytes|
    ensures forall i :: 0 <= i < |r| ==> IsLowerHex(r[i])
    decreases |bytes|
  {
    if |bytes| == 0 then []
    else [HexChar(bytes[0] / 16), HexChar(bytes[0] % 16)] + HexEncode(bytes[1..])
  }

  /** `bytes.fromhex(s)` on lower-case digits. */
  function HexDecode(s: string): seq<Byte>
    requires |s| % 2 == 0 && forall i :: 0 <= i < |s| ==> IsLowerHex(s[i])
    decreases |s|
  {
    if |s| == 0 then []
    else [HexDigitValue(s[0]) * 16 + HexDigitValue(s[1])] + HexDecode(s[2..])
  }

  /** The hex text determines the bytes: decoding it gives them back, so
      distinct random bytes give distinct keys. */
  lemma {:induction false} HexRoundTrip(bytes: seq<Byte>)
    ensures HexDecode(HexEncode(bytes)) == bytes
    decreases |bytes|
  {
    if |bytes| > 0 {
      var s := HexEncode(bytes);
      HexRoundTrip(bytes[1..]);
      assert s[2..] == HexEncode(bytes[1..]);
    }
  }
}
