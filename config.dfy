/** Collection-wide constants and the mapping from Anki deck names to
    Markdown file stems. */
module Config {
  import opened Wrappers
  import Text

  /** The text between two notes of a deck file. */
  const NoteSeparator: string := "\n\n---\n\n"

  /** Characters refused in a deck name because no file system accepts them
      in a file name. */
  const InvalidFilenameChars: set<char> := {'/', '\\', '?', '*', '|', '"', '<', '>'}

  /** Device names Windows reserves, compared upper-cased. */
  const WindowsReserved: set<string> := {
    "CON", "PRN", "AUX", "NUL",
    "COM1", "COM2", "COM3", "COM4", "COM5", "COM6", "COM7", "COM8", "COM9",
    "LPT1", "LPT2", "LPT3", "LPT4", "LPT5", "LPT6", "LPT7", "LPT8", "LPT9"
  }

  /** The first `::` segment of a deck name, upper-cased. */
  function ReservedBase(deckName: string): string {
    Text.Upper(Text.Split(deckName, "::")[0])
  }

  predicate HasInvalidChar(deckName: string) {
    exists i :: 0 <= i < |deckName| && deckName[i] in InvalidFilenameChars
  }

  /** The characters `sanitize_filename` looks for, in the order of its
      raw string `r'/\\?*|"<>'`, whose backslash appears twice. */
  const InvalidOrder: string := ['/', '\\', '\\', '?', '*', '|', '"', '<', '>']

  /** The characters of `order` that occur in `name`, in `order`'s order,
      repeats kept: the list comprehension `[c for c in order if c in name]`. */
  function Found(order: string, name: string): string
    decreases |order|
  {
    if |order| == 0 then []
    else Found(order[..|order| - 1], name) + (if order[|order| - 1] in name then [order[|order| - 1]] else [])
  }

  /** A character is listed exactly when `order` holds it and so does `name`. */
  lemma {:induction false} FoundMembers(order: string, name: string)
    ensures forall c :: c in Found(order, name) <==> c in order && c in name
    decreases |order|
  {
    if |order| > 0 {
      var n := |order| - 1;
      FoundMembers(order[..n], name);
      assert order == order[..n] + [order[n]];
    }
  }

  /** The invalid characters of a deck name, as `sanitize_filename` lists
      them. */
  function InvalidFound(deckName: string): (r: string)
    ensures r != [] <==> HasInvalidChar(deckName)
    ensures forall c :: c in r <==> c in deckName && c in InvalidFilenameChars
  {
    InvalidFoundIff(deckName);
    Found(InvalidOrder, deckName)
  }

  lemma InvalidFoundIff(deckName: string)
    ensures forall c :: c in Found(InvalidOrder, deckName) <==> c in deckName && c in InvalidFilenameChars
    ensures Found(InvalidOrder, deckName) != [] <==> HasInvalidChar(deckName)
  {
    var r := Found(InvalidOrder, deckName);
    FoundMembers(InvalidOrder, deckName);
    assert forall c :: c in InvalidOrder <==> c in InvalidFilenameChars;
    if r != [] {
      assert r[0] in r;
      var i :| 0 <= i < |deckName| && deckName[i] == r[0];
    }
    if HasInvalidChar(deckName) {
      var i :| 0 <= i < |deckName| && deckName[i] in InvalidFilenameChars;
      assert deckName[i] in r;
    }
  }

  /** Python's `repr` of a one-character string. */
  function CharRepr(c: char): string {
    if c == '\\' then "'\\\\'" else "'" + [c] + "'"
  }

  /** The items of a list of one-character strings, as its `repr` shows them. */
  function JoinReprs(cs: string): string
    decreases |cs|
  {
    if |cs| == 0 then ""
    else if |cs| == 1 then CharRepr(cs[0])
    else JoinReprs(cs[..|cs| - 1]) + ", " + CharRepr(cs[|cs| - 1])
  }

  /** `{invalid}` in an f-string: the list's `repr`. */
  function ListRepr(cs: string): string {
    "[" + JoinReprs(cs) + "]"
  }

  /** `sanitize_filename(deck_name)`: refuses names with an invalid character
      (listing them) or a reserved first segment; otherwise every `::`
      becomes `__`. The result never contains `::` and equals the name when
      it had none. */
  function SanitizeFilename(deckName: string): (r: Result<string>)
    ensures r.Err? <==> HasInvalidChar(deckName) || ReservedBase(deckName) in WindowsReserved
    ensures HasInvalidChar(deckName) ==>
      r == Err("Deck name '" + deckName + "' contains invalid filename characters: "
               + ListRepr(InvalidFound(deckName)) + "\nPlease rename the deck in Anki to remove these.")
    ensures !HasInvalidChar(deckName) && ReservedBase(deckName) in WindowsReserved ==>
      r == Err("Deck name '" + deckName + "' starts with Windows reserved name '"
               + ReservedBase(deckName) + "'.\nPlease rename the deck in Anki.")
    ensures r.Ok? ==> !Text.Contains(r.value, "::")
    ensures r.Ok? && !Text.Contains(deckName, "::") ==> r.value == deckName
    ensures r.Ok? ==> r.value == Text.ReplaceAll(deckName, "::", "__")
  {
    var invalid := InvalidFound(deckName);
    if invalid != [] then
      Err("Deck name '" + deckName + "' contains invalid filename characters: "
          + ListRepr(invalid) + "\nPlease rename the deck in Anki to remove these.")
    else if ReservedBase(deckName) in WindowsReserved then
      Err("Deck name '" + deckName + "' starts with Windows reserved name '"
          + ReservedBase(deckName) + "'.\nPlease rename the deck in Anki.")
    else
      ReplaceColons(deckName);
      Ok(Text.ReplaceAll(deckName, "::", "__"))
  }

  /** A name holding a backslash and a `?` lists the backslash twice, as
      the raw string holds it, before the `?`. */
  lemma BackslashListedTwice()
    ensures var name := "a\\b?";
      SanitizeFilename(name) == Err("Deck name '" + name + "' contains invalid filename characters: "
                                    + "['\\\\', '\\\\', '?']" + "\nPlease rename the deck in Anki to remove these.")
  {
    var name := "a\\b?";
    assert name[1] in InvalidFilenameChars;
    FoundExample();
    assert InvalidFound(name) == ['\\', '\\', '?'];
    ReprExample();
  }

  lemma ReprExample()
    ensures ListRepr(['\\', '\\', '?']) == "['\\\\', '\\\\', '?']"
  {
    var cs: string := ['\\', '\\', '?'];
    assert cs[..2][..1] == cs[..1];
    assert JoinReprs(cs[..1]) == "'\\\\'";
    assert JoinReprs(cs[..2]) == "'\\\\', '\\\\'";
  }

  lemma FoundExample()
    ensures Found(InvalidOrder, "a\\b?") == ['\\', '\\', '?']
  {
    var name := "a\\b?";
    var head: string := ['/', '\\', '\\', '?'];
    var tail: string := ['*', '|', '"', '<', '>'];
    assert InvalidOrder == head + tail;
    FoundAppend(head, tail, name);
    FoundNone(tail, name);
    assert name[1] == '\\' && name[3] == '?' && '/' !in name;
    FoundHead('/', '\\', '?', name);
  }

  /** `[p, q, q, r]` over a name holding `q` and `r` but not `p`. */
  lemma FoundHead(p: char, q: char, r: char, name: string)
    requires p !in name && q in name && r in name
    ensures Found([p, q, q, r], name) == [q, q, r]
  {
    var head := [p, q, q, r];
    assert Found(head[..1], name) == [] by { assert head[..1][..0] == []; }
    assert Found(head[..2], name) == [q] by { assert head[..2][..1] == head[..1]; }
    assert Found(head[..3], name) == [q, q] by { assert head[..3][..2] == head[..2]; }
    assert head[..4] == head;
  }

  /** Nothing is listed when `name` holds no character of `order`. */
  lemma {:induction false} FoundNone(order: string, name: string)
    ensures (forall c :: c in order ==> c !in name) ==> Found(order, name) == []
    decreases |order|
  {
    if |order| > 0 {
      FoundNone(order[..|order| - 1], name);
      assert order[|order| - 1] in order;
    }
  }

  /** Listing the characters of `a + b` lists those of `a`, then those of `b`. */
  lemma {:induction false} FoundAppend(a: string, b: string, name: string)
    ensures Found(a + b, name) == Found(a, name) + Found(b, name)
    decreases |b|
  {
    if |b| > 0 {
      var n := |b| - 1;
      FoundAppend(a, b[..n], name);
      assert (a + b)[..|a + b| - 1] == a + b[..n];
    } else {
      assert a + b == a;
    }
  }

  /** Replacing `::` by `__` leaves no `::` and is the identity on names
      without one. */
  lemma ReplaceColons(s: string)
    ensures !Text.Contains(Text.ReplaceAll(s, "::", "__"), "::")
    ensures !Text.Contains(s, "::") ==> Text.ReplaceAll(s, "::", "__") == s
  {
    Text.ReplaceRemoves(s, "::", "__");
    if !Text.Contains(s, "::") {
      Text.ReplaceAbsent(s, "::", "__");
    }
  }

  /** The file stem turns back into the deck name by replacing every `__` with
      `::`, as long as the deck name has no underscore of its own. */
  lemma SanitizeRoundTrip(deckName: string)
    requires SanitizeFilename(deckName).Ok?
    requires '_' !in deckName
    ensures Text.ReplaceAll(SanitizeFilename(deckName).value, "__", "::") == deckName
  {
    Text.ReplaceRoundTrip(deckName, "::", "__");
  }

  /** A deck name whose first `::` segment is a reserved device name in any
      letter case is refused, whether or not more segments follow. */
  lemma ReservedRefused(first: string, rest: string)
    requires ':' !in first && Text.Upper(first) in WindowsReserved
    ensures SanitizeFilename(first).Err?
    ensures SanitizeFilename(first + "::" + rest).Err?
  {
    forall k | 0 <= k < |first| ensures !Text.OccursAt(first, "::", k) {
      ColonAt(first, k);
    }
    Text.NotContains(first, "::");
    assert Text.Split(first, "::") == [first];
    var s := first + "::" + rest;
    var n := |first|;
    assert s[n..n + 2] == "::";
    Text.FindFirst(s, "::", n);
    forall k | 0 <= k < n ensures !Text.OccursAt(s, "::", k) {
      assert s[k] == first[k];
      ColonAt(s, k);
    }
    assert s[..n] == first;
    assert Text.Split(s, "::")[0] == first;
  }

  /** `::` can only start at a `:`. */
  lemma ColonAt(s: string, k: int)
    ensures Text.OccursAt(s, "::", k) ==> s[k] == ':'
  {
    if Text.OccursAt(s, "::", k) {
      assert s[k..k + 2][0] == s[k];
    }
  }
}
