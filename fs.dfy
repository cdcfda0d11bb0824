/** The Markdown side of the file-system adapter: a deck file is cut into
    blocks at the note separator, each block is read line by line into
    fields by their prefixes (with code fences and note-key comments), the
    note type is inferred from the field names, and the note is validated
    against that type. */
module Fs {
  import opened Wrappers
  import Text
  import Dicts
  import Config
  import Models
  import Seqs

  // ---------------------------------------------------------------- line classes

  /** `_CODE_FENCE_PATTERN.match(line.lstrip())`: a line opening or closing a
      code fence. */
  predicate IsFence(line: string) {
    var s := Text.LStripSpace(line);
    Text.StartsWith(s, "```") || Text.StartsWith(s, "~~~")
  }

  /** The characters `[a-zA-Z0-9-]` a note key is made of. */
  predicate IsKeyChar(c: char) {
    'a' <= c <= 'z' || 'A' <= c <= 'Z' || '0' <= c <= '9' || c == '-'
  }

  predicate IsKey(k: string) {
    |k| > 0 && forall i :: 0 <= i < |k| ==> IsKeyChar(k[i])
  }

  /** The index of the first non-whitespace character of `s` at or after
      `j` (`\s*`). */
  function SpaceEnd(s: string, j: nat): (m: nat)
    requires j <= |s|
    ensures j <= m <= |s|
    ensures m == |s| || s[m] !in Text.Whitespace
    decreases |s| - j
  {
    if j < |s| && s[j] in Text.Whitespace then SpaceEnd(s, j + 1) else j
  }

  /** The end of the run of key characters starting at `j`. */
  function KeyRunEnd(s: string, j: nat): (m: nat)
    requires j <= |s|
    ensures j <= m <= |s|
    ensures forall i :: j <= i < m ==> IsKeyChar(s[i])
    ensures m == |s| || !IsKeyChar(s[m])
    decreases |s| - j
  {
    if j < |s| && IsKeyChar(s[j]) then KeyRunEnd(s, j + 1) else j
  }

  /** `s` holds `lit` at index `j`. */
  predicate LiteralAt(s: string, lit: string, j: nat) {
    j + |lit| <= |s| && s[j..j + |lit|] == lit
  }

  /** The comment close `\s*-->` follows at index `j` of `s`. */
  predicate ClosesAt(s: string, j: nat)
    requires j <= |s|
  {
    LiteralAt(s, "-->", SpaceEnd(s, j))
  }

  /** The greedy `[a-zA-Z0-9-]+` from `start`, backtracking from `j` down to
      one character until the comment close follows. */
  function KeyEnd(s: string, start: nat, j: nat): (r: Option<nat>)
    requires start <= j <= |s|
    ensures r.Some? ==> start < r.value <= j
    decreases j
  {
    if j == start then None
    else if ClosesAt(s, j) then Some(j)
    else KeyEnd(s, start, j - 1)
  }

  /** The backtracking stops at the longest key after which the comment
      closes, and finds none only when no length would do. */
  lemma {:induction false} KeyEndLongest(s: string, start: nat, j: nat)
    requires start <= j <= |s|
    ensures var r := KeyEnd(s, start, j);
      r.Some? ==> ClosesAt(s, r.value) && forall k :: r.value < k <= j ==> !ClosesAt(s, k)
    ensures KeyEnd(s, start, j).None? ==> forall k :: start < k <= j ==> !ClosesAt(s, k)
    decreases j
  {
    if j > start && !ClosesAt(s, j) {
      KeyEndLongest(s, start, j - 1);
    }
  }

  /** `_NOTE_KEY_PATTERN.match(line).group(1)`: the key of a note-key
      comment at the start of the line, whatever follows it. */
  function NoteKeyOf(line: string): (r: Option<string>)
    ensures r.Some? ==> IsKey(r.value)
  {
    if !LiteralAt(line, "<!--", 0) then None
    else
      var a := SpaceEnd(line, 4);
      if !LiteralAt(line, "note_key:", a) then None
      else
        var b := SpaceEnd(line, a + 9);
        match KeyEnd(line, b, KeyRunEnd(line, b))
        case None => None
        case Some(e) => Some(line[b..e])
  }

  /** The comment the exporters write above a note. */
  function KeyComment(k: string): string {
    "<!-- note_key: " + k + " -->"
  }

  /** A key comment written by the exporters reads back as its key, whatever
      follows it on the line. */
  lemma KeyCommentRoundTrip(k: string, rest: string)
    requires IsKey(k)
    ensures NoteKeyOf(KeyComment(k) + rest) == Some(k)
  {
    var line := KeyComment(k) + rest;
    var e := 15 + |k|;
    KeyCommentHead(k, rest);
    KeyCommentTail(k, rest);
    assert KeyRunEnd(line, 15) == e by {
      KeyRunAtLeast(line, 15, e);
    }
    assert line[15..e] == k;
  }

  /** The opening `<!-- note_key: ` of a key comment. */
  lemma KeyCommentHead(k: string, rest: string)
    requires IsKey(k)
    ensures var line := KeyComment(k) + rest;
      LiteralAt(line, "<!--", 0) && SpaceEnd(line, 4) == 5 && LiteralAt(line, "note_key:", 5)
      && SpaceEnd(line, 14) == 15
  {
    var line := KeyComment(k) + rest;
    assert line[..4] == "<!--";
    assert line[4] == ' ' && line[5] == 'n';
    assert line[5..14] == "note_key:";
    assert line[14] == ' ' && line[15] == k[0];
  }

  /** The key and the closing ` -->` of a key comment. */
  lemma KeyCommentTail(k: string, rest: string)
    requires IsKey(k)
    ensures var line := KeyComment(k) + rest;
      (forall i :: 15 <= i < 15 + |k| ==> line[i] == k[i - 15])
      && !IsKeyChar(line[15 + |k|]) && ClosesAt(line, 15 + |k|)
  {
    var line := KeyComment(k) + rest;
    var e := 15 + |k|;
    assert forall i :: 15 <= i < e ==> line[i] == k[i - 15];
    assert line[e] == ' ' && line[e + 1] == '-';
    assert SpaceEnd(line, e + 1) == e + 1;
    assert line[e + 1..e + 4] == "-->";
  }

  lemma {:induction false} KeyRunAtLeast(s: string, j: nat, n: nat)
    requires j <= n <= |s|
    requires forall i :: j <= i < n ==> IsKeyChar(s[i])
    ensures KeyRunEnd(s, j) >= n
    decreases n - j
  {
    if j < n {
      KeyRunAtLeast(s, j + 1, n);
    }
  }

  /** `line.startswith(prefix + " ") or line == prefix`. */
  predicate Opens(line: string, prefix: string) {
    Text.StartsWith(line, prefix + " ") || line == prefix
  }

  /** The position, in the table's order, of the first prefix the line
      opens. */
  function FirstOpening(prefixes: seq<string>, line: string): (r: Option<nat>)
    ensures r.Some? ==> r.value < |prefixes| && Opens(line, prefixes[r.value])
    ensures r.Some? ==> forall i :: 0 <= i < r.value ==> !Opens(line, prefixes[i])
    ensures r.None? ==> forall i :: 0 <= i < |prefixes| ==> !Opens(line, prefixes[i])
    decreases |prefixes|
  {
    if |prefixes| == 0 then None
    else if Opens(line, prefixes[0]) then Some(0)
    else match FirstOpening(prefixes[1..], line)
      case None => None
      case Some(i) => Some(i + 1)
  }

  // ---------------------------------------------------------------- the prefix table

  /** The prefix table built from the configured types: every field with a
      non-empty prefix, in configuration order, a later field re-binding a
      prefix in place. */
  function PrefixTable(configs: seq<Models.NoteTypeConfig>): (r: Dicts.Dict<string, string>)
    ensures r.Valid()
    decreases |configs|
  {
    if |configs| == 0 then Dicts.Empty()
    else PutFields(PrefixTable(configs[..|configs| - 1]), configs[|configs| - 1].fields)
  }

  function PutFields(table: Dicts.Dict<string, string>, fields: seq<Models.Field>): (r: Dicts.Dict<string, string>)
    requires table.Valid()
    ensures r.Valid()
    decreases |fields|
  {
    if |fields| == 0 then table
    else
      var prev := PutFields(table, fields[..|fields| - 1]);
      var f := fields[|fields| - 1];
      if f.prefix.Some? && f.prefix.value != "" then Dicts.Put(prev, f.prefix.value, f.name) else prev
  }

  /** Some field of `fields` has prefix `p` and name `name`. */
  predicate Carries(fields: seq<Models.Field>, p: string, name: string) {
    exists i :: 0 <= i < |fields| && fields[i].prefix == Some(p) && fields[i].name == name
  }

  /** Every non-empty prefix of the added fields is in the table. */
  lemma {:induction false} PutFieldsCovers(table: Dicts.Dict<string, string>, fields: seq<Models.Field>, i: nat)
    requires table.Valid()
    requires i < |fields| && fields[i].prefix.Some? && fields[i].prefix.value != ""
    ensures fields[i].prefix.value in PutFields(table, fields).items
    decreases |fields|
  {
    var n := |fields| - 1;
    if i < n {
      PutFieldsCovers(table, fields[..n], i);
    }
  }

  /** Every entry of the table was there before or comes from an added
      field carrying that prefix. */
  lemma {:induction false} PutFieldsFrom(table: Dicts.Dict<string, string>, fields: seq<Models.Field>, p: string)
    requires table.Valid()
    requires p in PutFields(table, fields).items
    ensures (p in table.items && PutFields(table, fields).items[p] == table.items[p])
      || Carries(fields, p, PutFields(table, fields).items[p])
    decreases |fields|
  {
    if |fields| > 0 {
      var n := |fields| - 1;
      var prev := PutFields(table, fields[..n]);
      var f := fields[n];
      if f.prefix == Some(p) && p != "" {
        assert Carries(fields, p, f.name);
      } else {
        PutFieldsFrom(table, fields[..n], p);
        if Carries(fields[..n], p, prev.items[p]) {
          var i :| 0 <= i < n && fields[..n][i].prefix == Some(p) && fields[..n][i].name == prev.items[p];
          assert fields[i] == fields[..n][i];
        }
      }
    }
  }

  /** The prefix table maps every prefix a configured field carries, and
      only those, each to the name of a field carrying it. */
  lemma {:induction false} PrefixTableEntries(configs: seq<Models.NoteTypeConfig>, p: string)
    ensures p in PrefixTable(configs).items ==>
      exists c :: 0 <= c < |configs| && Carries(configs[c].fields, p, PrefixTable(configs).items[p])
    ensures (exists c, i :: 0 <= c < |configs| && 0 <= i < |configs[c].fields|
               && configs[c].fields[i].prefix == Some(p) && p != "")
      ==> p in PrefixTable(configs).items
    decreases |configs|
  {
    if |configs| > 0 {
      var n := |configs| - 1;
      var prev := PrefixTable(configs[..n]);
      PrefixTableEntries(configs[..n], p);
      if p in PrefixTable(configs).items {
        PutFieldsFrom(prev, configs[n].fields, p);
        if p in prev.items && PrefixTable(configs).items[p] == prev.items[p] {
          var c :| 0 <= c < n && Carries(configs[..n][c].fields, p, prev.items[p]);
          assert configs[c] == configs[..n][c];
        }
      }
      if c, i :| (0 <= c < |configs| && 0 <= i < |configs[c].fields|
                 && configs[c].fields[i].prefix == Some(p) && p != "") {
        if c == n {
          PutFieldsCovers(prev, configs[n].fields, i);
        } else {
          assert configs[..n][c] == configs[c];
          PutFieldsKeeps(prev, configs[n].fields, p);
        }
      }
    }
  }

  /** Adding fields never removes a prefix. */
  lemma {:induction false} PutFieldsKeeps(table: Dicts.Dict<string, string>, fields: seq<Models.Field>, p: string)
    requires table.Valid()
    requires p in table.items
    ensures p in PutFields(table, fields).items
    decreases |fields|
  {
    if |fields| > 0 {
      PutFieldsKeeps(table, fields[..|fields| - 1], p);
    }
  }

  // ---------------------------------------------------------------- reading one block

  /** The locals of the line loop: the note key, the closed fields in the
      order they were opened, the open field (`""` when none: the source
      treats `None` and an empty name alike), its lines, whether a code fence
      is open, and the field names met so far. */
  datatype BlockState = BlockState(
    noteKey: Option<string>,
    fields: seq<(string, string)>,
    current: string,
    content: seq<string>,
    inCode: bool,
    seen: set<string>)

  const Start: BlockState := BlockState(None, [], "", [], false, {})

  /** The open field's text: its lines joined and stripped. */
  function FieldText(content: seq<string>): string {
    Text.Strip(Text.Join(content, "\n"))
  }

  /** `fields[current_field] = ...` when a field is open. */
  function Closed(st: BlockState): seq<(string, string)> {
    if st.current != "" then st.fields + [(st.current, FieldText(st.content))] else st.fields
  }

  /** `current_content.append(line)` when a field is open. */
  function Extended(st: BlockState, line: string): seq<string> {
    if st.current != "" then st.content + [line] else st.content
  }

  function DuplicateMessage(prefix: string, noteKey: Option<string>): string {
    "Duplicate field '" + prefix + "' "
      + (if noteKey.Some? && noteKey.value != "" then "in note_key: " + noteKey.value else "in this note")
      + "."
  }

  /** One pass of the line loop. */
  function Step(table: Dicts.Dict<string, string>, st: BlockState, line: string): (r: Result<BlockState>)
    requires table.Valid()
  {
    if IsFence(line) then Ok(st.(inCode := !st.inCode, content := Extended(st, line)))
    else if NoteKeyOf(line).Some? then Ok(st.(noteKey := NoteKeyOf(line)))
    else if st.inCode then Ok(st.(content := Extended(st, line)))
    else match FirstOpening(table.keys, line)
      case None => Ok(st.(content := Extended(st, line)))
      case Some(i) =>
        var prefix := table.keys[i];
        var name := table.items[prefix];
        if name in st.seen then Err(DuplicateMessage(prefix, st.noteKey))
        else
          Ok(BlockState(st.noteKey, Closed(st), name, OpeningText(line, prefix), st.inCode, st.seen + {name}))
  }

  /** What the opening line adds to the new field: the rest of the line
      after `prefix` and one space, if the line has that space. */
  function OpeningText(line: string, prefix: string): seq<string> {
    if Text.StartsWith(line, prefix + " ") then [line[|prefix| + 1..]] else []
  }

  /** The line loop from state `st` over `lines`, stopping at the first
      duplicate field. */
  function Run(table: Dicts.Dict<string, string>, st: BlockState, lines: seq<string>): Result<BlockState>
    requires table.Valid()
    decreases |lines|
  {
    if |lines| == 0 then Ok(st)
    else
      var prev :- Run(table, st, lines[..|lines| - 1]);
      Step(table, prev, lines[|lines| - 1])
  }

  function ParseLines(table: Dicts.Dict<string, string>, lines: seq<string>): Result<BlockState>
    requires table.Valid()
  {
    Run(table, Start, lines)
  }

  /** A block the reader passes over: blank, or only dashes. */
  predicate Skipped(block: string) {
    forall i :: 0 <= i < |Text.Strip(block)| ==> Text.Strip(block)[i] == '-'
  }

  function NoPrefixMessage(block: string): string {
    var s := Text.Strip(block);
    "Found content but no valid field prefixes in block starting with: '"
      + (if |s| <= 50 then s else s[..50]) + "...'"
  }

  /** The key and fields of one block, or the error that stops the read. */
  function BlockFields(table: Dicts.Dict<string, string>, block: string): Result<(Option<string>, seq<(string, string)>)>
    requires table.Valid()
  {
    var st :- ParseLines(table, Text.Split(Text.Strip(block), "\n"));
    if Closed(st) == [] then Err(NoPrefixMessage(block)) else Ok((st.noteKey, Closed(st)))
  }

  // ---------------------------------------------------------------- what the line loop keeps

  /** The names of the closed fields. */
  function NameSet(fields: seq<(string, string)>): set<string> {
    set i | 0 <= i < |fields| :: fields[i].0
  }

  /** No field name twice. */
  ghost predicate Distinct(fields: seq<(string, string)>) {
    forall i, j :: 0 <= i < j < |fields| ==> fields[i].0 != fields[j].0
  }

  /** A non-empty name met in the table, with text that has no white space
      at either end. */
  ghost predicate FieldFrom(table: Dicts.Dict<string, string>, f: (string, string)) {
    f.0 != "" && f.0 in table.items.Values && Text.Trimmed(f.1, Text.Whitespace)
  }

  /** Each field once, under a non-empty name met in the table, with
      stripped text. */
  ghost predicate WellFormed(table: Dicts.Dict<string, string>, fields: seq<(string, string)>) {
    Distinct(fields) && forall i :: 0 <= i < |fields| ==> FieldFrom(table, fields[i])
  }

  /** What holds after every line: the closed fields are well formed; the
      open field has not been closed yet; the names met are exactly the
      closed and the open ones (besides an empty name, which is never
      stored); a key read is a key. */
  ghost predicate Kept(table: Dicts.Dict<string, string>, st: BlockState) {
    WellFormed(table, st.fields)
    && (st.current != "" ==> st.current in table.items.Values && st.current !in NameSet(st.fields))
    && st.seen - {""} == NameSet(st.fields) + (if st.current != "" then {st.current} else {})
    && (st.noteKey.Some? ==> IsKey(st.noteKey.value))
  }

  lemma NameSetSnoc(fields: seq<(string, string)>, p: (string, string))
    ensures NameSet(fields + [p]) == NameSet(fields) + {p.0}
  {
    var c := fields + [p];
    forall x | x in NameSet(c) ensures x in NameSet(fields) + {p.0} {
      var i :| 0 <= i < |c| && c[i].0 == x;
      if i < |fields| {
        assert c[i] == fields[i];
      }
    }
    forall x | x in NameSet(fields) ensures x in NameSet(c) {
      var i :| 0 <= i < |fields| && fields[i].0 == x;
      assert c[i] == fields[i];
    }
    assert c[|fields|] == p;
  }

  lemma DistinctSnoc(fields: seq<(string, string)>, p: (string, string))
    requires Distinct(fields) && p.0 !in NameSet(fields)
    ensures Distinct(fields + [p])
  {
    var c := fields + [p];
    forall i, j | 0 <= i < j < |c| ensures c[i].0 != c[j].0 {
      assert c[i] == fields[i];
      if j == |fields| {
        assert fields[i].0 in NameSet(fields);
      } else {
        assert c[j] == fields[j];
      }
    }
  }

  lemma WellFormedSnoc(table: Dicts.Dict<string, string>, fields: seq<(string, string)>, p: (string, string))
    requires WellFormed(table, fields)
    requires FieldFrom(table, p) && p.0 !in NameSet(fields)
    ensures WellFormed(table, fields + [p])
  {
    DistinctSnoc(fields, p);
    var c := fields + [p];
    forall i | 0 <= i < |c| ensures FieldFrom(table, c[i]) {
      if i < |fields| {
        assert c[i] == fields[i];
      }
    }
  }

  /** Closing the open field keeps the fields well formed and adds its name. */
  lemma ClosedWellFormed(table: Dicts.Dict<string, string>, st: BlockState)
    requires Kept(table, st)
    ensures WellFormed(table, Closed(st))
    ensures NameSet(Closed(st)) == NameSet(st.fields) + (if st.current != "" then {st.current} else {})
  {
    if st.current != "" {
      var p := (st.current, FieldText(st.content));
      Text.StripCharsTrimmed(Text.Join(st.content, "\n"), Text.Whitespace);
      NameSetSnoc(st.fields, p);
      WellFormedSnoc(table, st.fields, p);
    }
  }

  /** Opening a field `name` not met yet keeps what the loop keeps. */
  lemma OpenKept(table: Dicts.Dict<string, string>, st: BlockState, name: string, first: seq<string>)
    requires Kept(table, st) && name in table.items.Values && name !in st.seen
    ensures Kept(table, BlockState(st.noteKey, Closed(st), name, first, st.inCode, st.seen + {name}))
  {
    ClosedWellFormed(table, st);
  }

  /** The line of the loop that opens a field by its prefix. */
  lemma StepOpens(table: Dicts.Dict<string, string>, st: BlockState, line: string, i: nat)
    requires table.Valid()
    requires !IsFence(line) && NoteKeyOf(line).None? && !st.inCode
    requires FirstOpening(table.keys, line) == Some(i)
    ensures i < |table.keys| && table.keys[i] in table.items
    ensures var prefix := table.keys[i];
      var name := table.items[prefix];
      Step(table, st, line) ==
        if name in st.seen then Err(DuplicateMessage(prefix, st.noteKey))
        else Ok(BlockState(st.noteKey, Closed(st), name, OpeningText(line, prefix), st.inCode, st.seen + {name}))
  {
  }

  lemma StepKept(table: Dicts.Dict<string, string>, st: BlockState, line: string)
    requires table.Valid() && Kept(table, st)
    requires Step(table, st, line).Ok?
    ensures Kept(table, Step(table, st, line).value)
  {
    if !IsFence(line) && NoteKeyOf(line).None? && !st.inCode {
      var m := FirstOpening(table.keys, line);
      if m.Some? {
        StepOpens(table, st, line, m.value);
        var prefix := table.keys[m.value];
        OpenKept(table, st, table.items[prefix], OpeningText(line, prefix));
      }
    }
  }

  lemma {:induction false} RunKept(table: Dicts.Dict<string, string>, st: BlockState, lines: seq<string>)
    requires table.Valid() && Kept(table, st)
    requires Run(table, st, lines).Ok?
    ensures Kept(table, Run(table, st, lines).value)
    decreases |lines|
  {
    if |lines| > 0 {
      var n := |lines| - 1;
      RunKept(table, st, lines[..n]);
      StepKept(table, Run(table, st, lines[..n]).value, lines[n]);
    }
  }

  /** A block read without error has each field once, under a field name of
      the table, with stripped text, and only well-formed keys. */
  lemma BlockFieldsWellFormed(table: Dicts.Dict<string, string>, block: string)
    requires table.Valid()
    requires BlockFields(table, block).Ok?
    ensures |BlockFields(table, block).value.1| > 0
    ensures WellFormed(table, BlockFields(table, block).value.1)
    ensures var key := BlockFields(table, block).value.0;
      key.Some? ==> IsKey(key.value)
  {
    var st := BlockFieldsState(table, block);
    ClosedWellFormed(table, st);
  }

  /** The state the line loop ends in for a block read without error. */
  lemma BlockFieldsState(table: Dicts.Dict<string, string>, block: string) returns (st: BlockState)
    requires table.Valid()
    requires BlockFields(table, block).Ok?
    ensures Kept(table, st) && Closed(st) != []
    ensures BlockFields(table, block) == Ok((st.noteKey, Closed(st)))
  {
    var lines := Text.Split(Text.Strip(block), "\n");
    StartKept(table);
    RunKept(table, Start, lines);
    st := ParseLines(table, lines).value;
  }

  lemma StartKept(table: Dicts.Dict<string, string>)
    ensures Kept(table, Start)
  {
    assert NameSet([]) == {};
  }

  /** Running over `a + b` is running over `a`, then over `b`. */
  lemma {:induction false} RunAppend(table: Dicts.Dict<string, string>, st: BlockState, a: seq<string>, b: seq<string>)
    requires table.Valid()
    ensures Run(table, st, a + b) ==
      (if Run(table, st, a).Err? then Run(table, st, a) else Run(table, Run(table, st, a).value, b))
    decreases |b|
  {
    if |b| > 0 {
      var n := |b| - 1;
      Seqs.AppendDropLast(a, b);
      RunAppend(table, st, a, b[..n]);
    } else {
      Seqs.AppendNone(a, b);
    }
  }

  /** The last note-key comment outside a fence line, if any. */
  function LastKey(lines: seq<string>): Option<string>
    decreases |lines|
  {
    if |lines| == 0 then None
    else
      var line := lines[|lines| - 1];
      if !IsFence(line) && NoteKeyOf(line).Some? then NoteKeyOf(line) else LastKey(lines[..|lines| - 1])
  }

  /** The key of a block is that of its last key comment: a later one
      overrides an earlier one, fence or not. */
  lemma {:induction false} RunKeyIsLast(table: Dicts.Dict<string, string>, st: BlockState, lines: seq<string>)
    requires table.Valid()
    requires Run(table, st, lines).Ok?
    ensures Run(table, st, lines).value.noteKey == if LastKey(lines).Some? then LastKey(lines) else st.noteKey
    decreases |lines|
  {
    if |lines| > 0 {
      var n := |lines| - 1;
      RunKeyIsLast(table, st, lines[..n]);
      var prev := Run(table, st, lines[..n]);
      assert prev.Ok? && Run(table, st, lines) == Step(table, prev.value, lines[n]);
      StepKey(table, prev.value, lines[n]);
      assert LastKey(lines) == if !IsFence(lines[n]) && NoteKeyOf(lines[n]).Some? then NoteKeyOf(lines[n]) else LastKey(lines[..n]);
    }
  }

  /** A step changes the key read only on a key comment outside a fence
      line, to that comment's key. */
  lemma StepKey(table: Dicts.Dict<string, string>, st: BlockState, line: string)
    requires table.Valid()
    requires Step(table, st, line).Ok?
    ensures Step(table, st, line).value.noteKey ==
      if !IsFence(line) && NoteKeyOf(line).Some? then NoteKeyOf(line) else st.noteKey
  {
  }

  /** Two states that differ at most in the key read. */
  predicate SameButKey(a: BlockState, b: BlockState) {
    a.(noteKey := None) == b.(noteKey := None)
  }

  lemma StepSameButKey(table: Dicts.Dict<string, string>, a: BlockState, b: BlockState, line: string)
    requires table.Valid() && SameButKey(a, b)
    ensures Step(table, a, line).Ok? == Step(table, b, line).Ok?
    ensures Step(table, a, line).Ok? ==> SameButKey(Step(table, a, line).value, Step(table, b, line).value)
  {
    assert a.fields == b.fields && a.current == b.current && a.content == b.content;
    assert a.inCode == b.inCode && a.seen == b.seen;
    if !IsFence(line) && NoteKeyOf(line).None? && !a.inCode {
      var m := FirstOpening(table.keys, line);
      if m.Some? {
        StepOpens(table, a, line, m.value);
        StepOpens(table, b, line, m.value);
        assert Closed(a) == Closed(b);
      }
    }
  }

  lemma {:induction false} RunSameButKey(table: Dicts.Dict<string, string>, a: BlockState, b: BlockState, lines: seq<string>)
    requires table.Valid() && SameButKey(a, b)
    ensures Run(table, a, lines).Ok? == Run(table, b, lines).Ok?
    ensures Run(table, a, lines).Ok? ==> SameButKey(Run(table, a, lines).value, Run(table, b, lines).value)
    decreases |lines|
  {
    if |lines| > 0 {
      var n := |lines| - 1;
      RunSameButKey(table, a, b, lines[..n]);
      if Run(table, a, lines[..n]).Ok? {
        StepSameButKey(table, Run(table, a, lines[..n]).value, Run(table, b, lines[..n]).value, lines[n]);
      }
    }
  }

  /** A note-key comment line never becomes field content, even inside a
      code fence: taking it out of a block changes nothing but the key. */
  lemma KeyLineTransparent(table: Dicts.Dict<string, string>, before: seq<string>, line: string, after: seq<string>)
    requires table.Valid()
    requires !IsFence(line) && NoteKeyOf(line).Some?
    ensures ParseLines(table, before + [line] + after).Ok? == ParseLines(table, before + after).Ok?
    ensures ParseLines(table, before + [line] + after).Ok? ==>
      SameButKey(ParseLines(table, before + [line] + after).value, ParseLines(table, before + after).value)
  {
    RunAppend(table, Start, before + [line], after);
    RunAppend(table, Start, before, after);
    RunAppend(table, Start, before, [line]);
    var r := Run(table, Start, before);
    if r.Ok? {
      assert Run(table, r.value, [line]) == Ok(r.value.(noteKey := NoteKeyOf(line)));
      RunSameButKey(table, r.value.(noteKey := NoteKeyOf(line)), r.value, after);
    }
  }

  /** Inside an open code fence, lines that are neither fences nor key
      comments are added verbatim to the open field: no prefix is
      recognised there. */
  lemma {:induction false} FencedLinesVerbatim(table: Dicts.Dict<string, string>, st: BlockState, lines: seq<string>)
    requires table.Valid()
    requires st.inCode && st.current != ""
    requires forall i :: 0 <= i < |lines| ==> !IsFence(lines[i]) && NoteKeyOf(lines[i]).None?
    ensures Run(table, st, lines) == Ok(st.(content := st.content + lines))
    decreases |lines|
  {
    if |lines| > 0 {
      var n := |lines| - 1;
      FencedLinesVerbatim(table, st, lines[..n]);
      StepFenced(table, st.(content := st.content + lines[..n]), lines[n]);
      Seqs.AppendLast(st.content, lines);
    } else {
      Seqs.AppendNone(st.content, lines);
    }
  }

  lemma StepFenced(table: Dicts.Dict<string, string>, st: BlockState, line: string)
    requires table.Valid() && st.inCode && st.current != ""
    requires !IsFence(line) && NoteKeyOf(line).None?
    ensures Step(table, st, line) == Ok(st.(content := st.content + [line]))
  {
  }

  /** A line that is neither a fence, nor a key comment, nor opens a
      prefix of the table. */
  predicate Plain(table: Dicts.Dict<string, string>, line: string) {
    !IsFence(line) && NoteKeyOf(line).None? && FirstOpening(table.keys, line).None?
  }

  lemma StepPlain(table: Dicts.Dict<string, string>, st: BlockState, line: string)
    requires table.Valid() && !st.inCode && Plain(table, line)
    ensures Step(table, st, line) == Ok(st.(content := Extended(st, line)))
  {
  }

  /** Outside a fence, lines that open no prefix extend the open field. */
  lemma {:induction false} PlainLinesExtend(table: Dicts.Dict<string, string>, st: BlockState, lines: seq<string>)
    requires table.Valid()
    requires !st.inCode && st.current != ""
    requires forall i :: 0 <= i < |lines| ==> Plain(table, lines[i])
    ensures Run(table, st, lines) == Ok(st.(content := st.content + lines))
    decreases |lines|
  {
    if |lines| > 0 {
      var n := |lines| - 1;
      PlainLinesExtend(table, st, lines[..n]);
      StepPlain(table, st.(content := st.content + lines[..n]), lines[n]);
      Seqs.AppendLast(st.content, lines);
    } else {
      Seqs.AppendNone(st.content, lines);
    }
  }

  /** Outside a fence and before the first prefix, lines that open no
      prefix are dropped. */
  lemma {:induction false} PlainLinesDropped(table: Dicts.Dict<string, string>, st: BlockState, lines: seq<string>)
    requires table.Valid()
    requires !st.inCode && st.current == ""
    requires forall i :: 0 <= i < |lines| ==> Plain(table, lines[i])
    ensures Run(table, st, lines) == Ok(st)
    decreases |lines|
  {
    if |lines| > 0 {
      var n := |lines| - 1;
      PlainLinesDropped(table, st, lines[..n]);
      StepPlain(table, st, lines[n]);
    }
  }

  /** Outside a fence, a line opening a prefix whose field was already met
      in the block fails the read with the duplicate-field message; one
      opening a new field closes the open field, with its lines joined and
      stripped, and starts the new one with the text after the prefix. */
  lemma PrefixLine(table: Dicts.Dict<string, string>, lines: seq<string>, line: string)
    requires table.Valid()
    requires ParseLines(table, lines).Ok? && !ParseLines(table, lines).value.inCode
    requires !IsFence(line) && NoteKeyOf(line).None? && FirstOpening(table.keys, line).Some?
    ensures var st := ParseLines(table, lines).value;
      var prefix := table.keys[FirstOpening(table.keys, line).value];
      var name := table.items[prefix];
      var r := ParseLines(table, lines + [line]);
      (name in st.seen ==> r == Err(DuplicateMessage(prefix, st.noteKey)))
      && (name !in st.seen ==>
            r.Ok? && r.value.current == name
            && r.value.fields == (if st.current != "" then st.fields + [(st.current, FieldText(st.content))] else st.fields)
            && r.value.content == (if Text.StartsWith(line, prefix + " ") then [line[|prefix| + 1..]] else []))
  {
    Seqs.AppendTake(lines, [line]);
  }

  // ---------------------------------------------------------------- note-type inference

  /** The note's field names other than the reserved key field. */
  function NoteFieldNames(fields: seq<(string, string)>): set<string> {
    (set i | 0 <= i < |fields| :: fields[i].0) - {Models.KeyFieldName}
  }

  predicate IsChoiceField(name: string) {
    Text.Contains(name, "Choice")
  }

  /** `{f.name for f in fields}`, and with `identifying_only` the names of
      the identifying fields only. */
  function FieldNames(fields: seq<Models.Field>, identifyingOnly: bool): set<string>
    decreases |fields|
  {
    if |fields| == 0 then {}
    else
      var f := fields[|fields| - 1];
      FieldNames(fields[..|fields| - 1], identifyingOnly)
        + (if !identifyingOnly || f.identifying then {f.name} else {})
  }

  lemma {:induction false} FieldNamesIff(fields: seq<Models.Field>, identifyingOnly: bool)
    ensures FieldNames(fields, identifyingOnly)
      == set f | f in fields && (!identifyingOnly || f.identifying) :: f.name
    decreases |fields|
  {
    if |fields| > 0 {
      var n := |fields| - 1;
      FieldNamesIff(fields[..n], identifyingOnly);
      assert fields == fields[..n] + [fields[n]];
    }
  }

  /** The names of the choice fields among `fields`. */
  function ChoiceNames(fields: seq<Models.Field>): set<string>
    decreases |fields|
  {
    if |fields| == 0 then {}
    else
      var f := fields[|fields| - 1];
      ChoiceNames(fields[..|fields| - 1]) + (if IsChoiceField(f.name) then {f.name} else {})
  }

  lemma {:induction false} ChoiceNamesIff(fields: seq<Models.Field>)
    ensures ChoiceNames(fields) == set n | n in FieldNames(fields, false) && IsChoiceField(n)
    decreases |fields|
  {
    if |fields| > 0 {
      ChoiceNamesIff(fields[..|fields| - 1]);
    }
  }

  /** A type that could hold the note: it knows every field the note has,
      and the note has its identifying fields, where a choice type instead
      needs its identifying non-choice fields and at least one choice
      field. */
  predicate IsCandidate(config: Models.NoteTypeConfig, noteFields: set<string>) {
    var all := FieldNames(config.fields, false);
    var ident := FieldNames(config.fields, true);
    var choice := ChoiceNames(config.fields);
    noteFields <= all
    && if config.isChoice then ident - choice <= noteFields && noteFields * choice != {}
       else ident <= noteFields
  }

  /** The names of the candidate types, in configuration order. */
  function Candidates(configs: seq<Models.NoteTypeConfig>, noteFields: set<string>): seq<string>
    decreases |configs|
  {
    if |configs| == 0 then []
    else
      var n := |configs| - 1;
      Candidates(configs[..n], noteFields)
        + (if IsCandidate(configs[n], noteFields) then [configs[n].name] else [])
  }

  /** `_infer_note_type`: the one candidate, or why there is not exactly
      one. */
  function InferSpec(configs: seq<Models.NoteTypeConfig>, fields: seq<(string, string)>): Result<string> {
    var cands := Candidates(configs, NoteFieldNames(fields));
    if |cands| == 0 then Err("Cannot determine note type from fields: " + Text.Join(Seqs.Firsts(fields), ", "))
    else if |cands| > 1 then Err("Ambiguous note type: matches multiple types: " + Text.Join(cands, ", "))
    else Ok(cands[0])
  }

  /** Configuration `i` is the only candidate. */
  predicate OnlyCandidate(configs: seq<Models.NoteTypeConfig>, noteFields: set<string>, i: int) {
    0 <= i < |configs| && IsCandidate(configs[i], noteFields)
    && forall j :: 0 <= j < |configs| && j != i ==> !IsCandidate(configs[j], noteFields)
  }

  /** No candidate names come out exactly when no configuration is a
      candidate. */
  lemma {:induction false} CandidatesNone(configs: seq<Models.NoteTypeConfig>, noteFields: set<string>)
    ensures |Candidates(configs, noteFields)| == 0 <==>
      forall i :: 0 <= i < |configs| ==> !IsCandidate(configs[i], noteFields)
    decreases |configs|
  {
    if |configs| > 0 {
      var n := |configs| - 1;
      CandidatesNone(configs[..n], noteFields);
      assert forall i :: 0 <= i < n ==> configs[..n][i] == configs[i];
    }
  }

  /** A sole candidate is the whole candidate list. */
  lemma {:induction false} CandidatesOnly(configs: seq<Models.NoteTypeConfig>, noteFields: set<string>, i: int)
    requires OnlyCandidate(configs, noteFields, i)
    ensures Candidates(configs, noteFields) == [configs[i].name]
    decreases |configs|
  {
    var n := |configs| - 1;
    var prev := configs[..n];
    assert forall j :: 0 <= j < n ==> prev[j] == configs[j];
    if i < n {
      assert OnlyCandidate(prev, noteFields, i);
      CandidatesOnly(prev, noteFields, i);
    } else {
      CandidatesNone(prev, noteFields);
    }
  }

  /** A single candidate name comes from a sole candidate configuration. */
  lemma {:induction false} CandidatesSingle(configs: seq<Models.NoteTypeConfig>, noteFields: set<string>)
    requires |Candidates(configs, noteFields)| == 1
    ensures exists i :: OnlyCandidate(configs, noteFields, i)
    decreases |configs|
  {
    var n := |configs| - 1;
    var prev := configs[..n];
    assert forall j :: 0 <= j < n ==> prev[j] == configs[j];
    if IsCandidate(configs[n], noteFields) {
      CandidatesNone(prev, noteFields);
      assert OnlyCandidate(configs, noteFields, n);
    } else {
      CandidatesSingle(prev, noteFields);
      var i :| OnlyCandidate(prev, noteFields, i);
      assert OnlyCandidate(configs, noteFields, i);
    }
  }

  /** Two candidate configurations give at least two candidate names. */
  lemma {:induction false} CandidatesTwo(configs: seq<Models.NoteTypeConfig>, noteFields: set<string>, i: nat, j: nat)
    requires i < j < |configs|
    requires IsCandidate(configs[i], noteFields) && IsCandidate(configs[j], noteFields)
    ensures |Candidates(configs, noteFields)| >= 2
    decreases |configs|
  {
    var n := |configs| - 1;
    var prev := configs[..n];
    assert prev[i] == configs[i];
    if j < n {
      assert prev[j] == configs[j];
      CandidatesTwo(prev, noteFields, i, j);
      assert |Candidates(configs, noteFields)| >= |Candidates(prev, noteFields)|;
    } else {
      CandidatesNone(prev, noteFields);
      assert |Candidates(prev, noteFields)| >= 1;
      assert Candidates(configs, noteFields) == Candidates(prev, noteFields) + [configs[n].name];
    }
  }

  /** Inference succeeds exactly when one configured type is a candidate,
      and then names it; with none it cannot determine the type, with two or
      more it reports the ambiguity. */
  lemma InferIff(configs: seq<Models.NoteTypeConfig>, fields: seq<(string, string)>, t: string)
    ensures InferSpec(configs, fields) == Ok(t) <==>
      exists i :: OnlyCandidate(configs, NoteFieldNames(fields), i) && configs[i].name == t
    ensures (forall i :: 0 <= i < |configs| ==> !IsCandidate(configs[i], NoteFieldNames(fields))) ==>
      InferSpec(configs, fields) == Err("Cannot determine note type from fields: " + Text.Join(Seqs.Firsts(fields), ", "))
    ensures (exists i, j :: 0 <= i < j < |configs| && IsCandidate(configs[i], NoteFieldNames(fields))
               && IsCandidate(configs[j], NoteFieldNames(fields))) ==>
      InferSpec(configs, fields) == Err("Ambiguous note type: matches multiple types: "
        + Text.Join(Candidates(configs, NoteFieldNames(fields)), ", "))
  {
    var nf := NoteFieldNames(fields);
    CandidatesNone(configs, nf);
    if |Candidates(configs, nf)| == 1 {
      CandidatesSingle(configs, nf);
      var i :| OnlyCandidate(configs, nf, i);
      CandidatesOnly(configs, nf, i);
    }
    if i :| OnlyCandidate(configs, nf, i) {
      CandidatesOnly(configs, nf, i);
    }
    if i, j :| 0 <= i < j < |configs| && IsCandidate(configs[i], nf) && IsCandidate(configs[j], nf) {
      CandidatesTwo(configs, nf, i, j);
    }
  }

  // ---------------------------------------------------------------- reading a file

  /** `next(c for c in configs if c.name == name)`. */
  function FirstNamed(configs: seq<Models.NoteTypeConfig>, name: string): (c: Models.NoteTypeConfig)
    requires exists i :: 0 <= i < |configs| && configs[i].name == name
    ensures c.name == name
    ensures exists i :: 0 <= i < |configs| && configs[i] == c && forall j :: 0 <= j < i ==> configs[j].name != name
    decreases |configs|
  {
    if configs[0].name == name then configs[0]
    else
      assert exists i :: 0 <= i < |configs[1..]| && configs[1..][i].name == name by {
        var i :| 0 <= i < |configs| && configs[i].name == name;
        assert configs[1..][i - 1] == configs[i];
      }
      var c := FirstNamed(configs[1..], name);
      assert exists i :: 0 <= i < |configs| && configs[i] == c && forall j :: 0 <= j < i ==> configs[j].name != name by {
        var i :| 0 <= i < |configs[1..]| && configs[1..][i] == c && forall j :: 0 <= j < i ==> configs[1..][j].name != name;
        assert configs[i + 1] == c;
        assert forall j :: 1 <= j < i + 1 ==> configs[j] == configs[1..][j - 1];
      }
      c
  }

  /** An inferred type is the name of a configured type. */
  lemma InferNamesConfig(configs: seq<Models.NoteTypeConfig>, fields: seq<(string, string)>)
    requires InferSpec(configs, fields).Ok?
    ensures exists i :: 0 <= i < |configs| && configs[i].name == InferSpec(configs, fields).value
  {
    InferIff(configs, fields, InferSpec(configs, fields).value);
  }

  function InvalidMessage(errors: seq<string>): string {
    "Invalid note in block:\n  " + Text.Join(errors, "\n  ")
  }

  /** One block that is not skipped: its fields, its inferred type, and the
      validation of the note against the first type of that name. */
  function ReadBlock(configs: seq<Models.NoteTypeConfig>, table: Dicts.Dict<string, string>, block: string): Result<Models.Note>
    requires table.Valid()
  {
    var parsed :- BlockFields(table, block);
    var t :- InferSpec(configs, parsed.1);
    InferNamesConfig(configs, parsed.1);
    var note := Models.Note(parsed.0, t, parsed.1);
    var errors :- Models.ValidateSpec(note, FirstNamed(configs, t));
    if errors != [] then Err(InvalidMessage(errors)) else Ok(note)
  }

  /** Nothing when the block is skipped, else what reading it gives. */
  function Outcome(configs: seq<Models.NoteTypeConfig>, table: Dicts.Dict<string, string>, block: string)
    : Option<Result<Models.Note>>
    requires table.Valid()
  {
    if Skipped(block) then None else Some(ReadBlock(configs, table, block))
  }

  /** The outcome of each block, in order. */
  function Outcomes(configs: seq<Models.NoteTypeConfig>, table: Dicts.Dict<string, string>, blocks: seq<string>)
    : (r: seq<Option<Result<Models.Note>>>)
    requires table.Valid()
    ensures |r| == |blocks|
  {
    seq(|blocks|, i requires 0 <= i < |blocks| => Outcome(configs, table, blocks[i]))
  }

  lemma OutcomesAt(configs: seq<Models.NoteTypeConfig>, table: Dicts.Dict<string, string>, blocks: seq<string>, i: nat)
    requires table.Valid() && i < |blocks|
    ensures Outcomes(configs, table, blocks)[i] == Outcome(configs, table, blocks[i])
    ensures Outcomes(configs, table, blocks)[..i] == Outcomes(configs, table, blocks[..i])
  {
    OutcomesPrefix(configs, table, blocks, i);
  }

  lemma OutcomesPrefix(configs: seq<Models.NoteTypeConfig>, table: Dicts.Dict<string, string>, blocks: seq<string>, i: nat)
    requires table.Valid() && i <= |blocks|
    ensures Outcomes(configs, table, blocks)[..i] == Outcomes(configs, table, blocks[..i])
  {
    var o := Outcomes(configs, table, blocks);
    var p := Outcomes(configs, table, blocks[..i]);
    forall j | 0 <= j < i ensures o[j] == p[j] {
      assert blocks[..i][j] == blocks[j];
    }
  }

  /** One more block adds its outcome. */
  lemma OutcomesSnoc(configs: seq<Models.NoteTypeConfig>, table: Dicts.Dict<string, string>, blocks: seq<string>, b: nat)
    requires table.Valid() && b < |blocks|
    ensures Outcomes(configs, table, blocks[..b + 1])
      == Outcomes(configs, table, blocks[..b]) + [Outcome(configs, table, blocks[b])]
  {
    var o := Outcomes(configs, table, blocks[..b + 1]);
    Seqs.LastSplit(o);
    OutcomesAt(configs, table, blocks[..b + 1], b);
    Seqs.TakeTake(blocks, b + 1, b);
    assert blocks[..b + 1][b] == blocks[b];
  }





  /** The values of the present outcomes in order, or the first error. */
  function Gather<T>(outcomes: seq<Option<Result<T>>>): Result<seq<T>>
    decreases |outcomes|
  {
    if |outcomes| == 0 then Ok([])
    else
      var values :- Gather(outcomes[..|outcomes| - 1]);
      match outcomes[|outcomes| - 1]
      case None => Ok(values)
      case Some(r) =>
        var v :- r;
        Ok(values + [v])
  }

  /** The present outcomes, in order. */
  function Present<T>(outcomes: seq<Option<Result<T>>>): (r: seq<Result<T>>)
    decreases |outcomes|
  {
    if |outcomes| == 0 then []
    else
      var n := |outcomes| - 1;
      Present(outcomes[..n]) + (if outcomes[n].Some? then [outcomes[n].value] else [])
  }

  /** Gathering succeeds exactly when every present outcome does, and then
      yields their values in order. */
  lemma {:induction false} GatherIff<T>(outcomes: seq<Option<Result<T>>>)
    ensures Gather(outcomes).Ok? <==>
      forall i :: 0 <= i < |outcomes| && outcomes[i].Some? ==> outcomes[i].value.Ok?
    ensures Gather(outcomes).Ok? ==>
      |Gather(outcomes).value| == |Present(outcomes)|
      && forall k :: 0 <= k < |Present(outcomes)| ==> Present(outcomes)[k] == Ok(Gather(outcomes).value[k])
    decreases |outcomes|
  {
    if |outcomes| > 0 {
      var n := |outcomes| - 1;
      var prev := outcomes[..n];
      GatherIff(prev);
      assert forall i :: 0 <= i < n ==> prev[i] == outcomes[i];
      if Gather(outcomes).Ok? {
        var values := Gather(outcomes).value;
        var before := Gather(prev).value;
        assert forall k :: 0 <= k < |before| ==> values[k] == before[k];
        assert forall k :: 0 <= k < |before| ==> Present(outcomes)[k] == Present(prev)[k];
      }
    }
  }

  /** Every present outcome comes from the list. */
  lemma {:induction false} PresentFrom<T>(outcomes: seq<Option<Result<T>>>, k: nat)
    requires k < |Present(outcomes)|
    ensures exists i :: 0 <= i < |outcomes| && outcomes[i] == Some(Present(outcomes)[k])
    decreases |outcomes|
  {
    var n := |outcomes| - 1;
    var prev := outcomes[..n];
    if k < |Present(prev)| {
      PresentFrom(prev, k);
      var i :| 0 <= i < |prev| && prev[i] == Some(Present(prev)[k]);
      assert outcomes[i] == prev[i];
    } else {
      assert outcomes[n] == Some(Present(outcomes)[k]);
    }
  }

  /** Every value gathered comes from an outcome of the list. */
  lemma GatherFrom<T>(outcomes: seq<Option<Result<T>>>, k: nat)
    requires Gather(outcomes).Ok? && k < |Gather(outcomes).value|
    ensures exists i :: 0 <= i < |outcomes| && outcomes[i] == Some(Ok(Gather(outcomes).value[k]))
  {
    GatherIff(outcomes);
    PresentFrom(outcomes, k);
  }

  /** Gathering one more outcome. */
  lemma GatherSnoc<T>(outcomes: seq<Option<Result<T>>>, o: Option<Result<T>>)
    ensures Gather(outcomes).Err? ==> Gather(outcomes + [o]) == Gather(outcomes)
    ensures Gather(outcomes).Ok? && o.None? ==> Gather(outcomes + [o]) == Gather(outcomes)
    ensures Gather(outcomes).Ok? && o.Some? && o.value.Err? ==> Gather(outcomes + [o]) == Err(o.value.error)
    ensures Gather(outcomes).Ok? && o.Some? && o.value.Ok? ==>
      Gather(outcomes + [o]) == Ok(Gather(outcomes).value + [o.value.value])
  {
    assert (outcomes + [o])[..|outcomes|] == outcomes;
  }

  /** A failure stays the result whatever outcomes follow. */
  lemma {:induction false} GatherErrSticks<T>(outcomes: seq<Option<Result<T>>>, k: nat)
    requires k <= |outcomes|
    requires Gather(outcomes[..k]).Err?
    ensures Gather(outcomes) == Gather(outcomes[..k])
    decreases |outcomes| - k
  {
    if k < |outcomes| {
      var n := |outcomes| - 1;
      assert outcomes[..n][..k] == outcomes[..k];
      GatherErrSticks(outcomes[..n], k);
    } else {
      assert outcomes[..k] == outcomes;
    }
  }

  /** `read_markdown_file` over the file's text: the blocks in order,
      skipping blank and dash-only ones; the first failing block fails the
      read. */
  function ReadSpec(configs: seq<Models.NoteTypeConfig>, content: string): Result<seq<Models.Note>> {
    Gather(Outcomes(configs, PrefixTable(configs), Text.Split(content, Config.NoteSeparator)))
  }

  /** After a successful read, every block it did not skip read. */
  lemma ReadOkAll(configs: seq<Models.NoteTypeConfig>, content: string, i: nat)
    requires ReadSpec(configs, content).Ok?
    requires i < |Text.Split(content, Config.NoteSeparator)|
    requires !Skipped(Text.Split(content, Config.NoteSeparator)[i])
    ensures ReadBlock(configs, PrefixTable(configs), Text.Split(content, Config.NoteSeparator)[i]).Ok?
  {
    var blocks := Text.Split(content, Config.NoteSeparator);
    var table := PrefixTable(configs);
    var outcomes := Outcomes(configs, table, blocks);
    GatherIff(outcomes);
    OutcomesAt(configs, table, blocks, i);
    OutcomeOk(configs, table, blocks[i]);
  }

  /** A failed read names a block it did not skip that failed. */
  lemma ReadErrBlock(configs: seq<Models.NoteTypeConfig>, content: string)
    requires ReadSpec(configs, content).Err?
    ensures exists i :: (0 <= i < |Text.Split(content, Config.NoteSeparator)|
      && !Skipped(Text.Split(content, Config.NoteSeparator)[i])
      && ReadBlock(configs, PrefixTable(configs), Text.Split(content, Config.NoteSeparator)[i]).Err?)
  {
    var blocks := Text.Split(content, Config.NoteSeparator);
    var table := PrefixTable(configs);
    var outcomes := Outcomes(configs, table, blocks);
    GatherIff(outcomes);
    var i :| 0 <= i < |outcomes| && outcomes[i].Some? && !outcomes[i].value.Ok?;
    OutcomesAt(configs, table, blocks, i);
    OutcomeOk(configs, table, blocks[i]);
  }

  lemma OutcomeOk(configs: seq<Models.NoteTypeConfig>, table: Dicts.Dict<string, string>, block: string)
    requires table.Valid()
    ensures (Outcome(configs, table, block).Some? ==> Outcome(configs, table, block).value.Ok?) <==>
      (!Skipped(block) ==> ReadBlock(configs, table, block).Ok?)
  {
  }

  /** The number of blocks a read does not skip. */
  function NoteBlockCount(blocks: seq<string>): nat
    decreases |blocks|
  {
    if |blocks| == 0 then 0
    else NoteBlockCount(blocks[..|blocks| - 1]) + (if Skipped(blocks[|blocks| - 1]) then 0 else 1)
  }

  lemma {:induction false} PresentCount(configs: seq<Models.NoteTypeConfig>, table: Dicts.Dict<string, string>, blocks: seq<string>)
    requires table.Valid()
    ensures |Present(Outcomes(configs, table, blocks))| == NoteBlockCount(blocks)
    decreases |blocks|
  {
    if |blocks| > 0 {
      var n := |blocks| - 1;
      PresentCount(configs, table, blocks[..n]);
      var outcomes := Outcomes(configs, table, blocks);
      assert outcomes[..n] == Outcomes(configs, table, blocks[..n]);
      assert outcomes[n].Some? <==> !Skipped(blocks[n]);
    }
  }

  /** A successful read yields one note per block that is neither blank nor
      made only of dashes. */
  lemma ReadCount(configs: seq<Models.NoteTypeConfig>, content: string)
    requires ReadSpec(configs, content).Ok?
    ensures |ReadSpec(configs, content).value| == NoteBlockCount(Text.Split(content, Config.NoteSeparator))
  {
    var blocks := Text.Split(content, Config.NoteSeparator);
    GatherIff(Outcomes(configs, PrefixTable(configs), blocks));
    PresentCount(configs, PrefixTable(configs), blocks);
  }

  /** What every note read from a file satisfies: its fields are those of a
      well-formed block, its type is the one candidate type for those
      fields, and it validates against the first type of that name. */
  ghost predicate Accepted(configs: seq<Models.NoteTypeConfig>, table: Dicts.Dict<string, string>, note: Models.Note) {
    |note.fields| > 0
    && WellFormed(table, note.fields)
    && (note.noteKey.Some? ==> IsKey(note.noteKey.value))
    && (exists i :: OnlyCandidate(configs, NoteFieldNames(note.fields), i) && configs[i].name == note.noteType)
    && (exists i :: 0 <= i < |configs| && configs[i].name == note.noteType)
    && Models.ValidateSpec(note, FirstNamed(configs, note.noteType)) == Ok([])
  }

  /** What a block read without error is made of. */
  lemma ReadBlockParts(configs: seq<Models.NoteTypeConfig>, table: Dicts.Dict<string, string>, block: string)
    requires table.Valid()
    requires ReadBlock(configs, table, block).Ok?
    ensures var note := ReadBlock(configs, table, block).value;
      BlockFields(table, block) == Ok((note.noteKey, note.fields))
      && InferSpec(configs, note.fields) == Ok(note.noteType)
    ensures var note := ReadBlock(configs, table, block).value;
      (exists i :: 0 <= i < |configs| && configs[i].name == note.noteType)
      && Models.ValidateSpec(note, FirstNamed(configs, note.noteType)) == Ok([])
  {
    var parsed := BlockFields(table, block);
    assert parsed.Ok?;
    var t := InferSpec(configs, parsed.value.1);
    assert t.Ok?;
    InferNamesConfig(configs, parsed.value.1);
    var note := Models.Note(parsed.value.0, t.value, parsed.value.1);
    var v := Models.ValidateSpec(note, FirstNamed(configs, t.value));
    assert v.Ok? && v.value == [];
    assert ReadBlock(configs, table, block) == Ok(note);
  }

  lemma ReadBlockAccepted(configs: seq<Models.NoteTypeConfig>, table: Dicts.Dict<string, string>, block: string)
    requires table.Valid()
    requires ReadBlock(configs, table, block).Ok?
    ensures Accepted(configs, table, ReadBlock(configs, table, block).value)
  {
    var note := ReadBlock(configs, table, block).value;
    ReadBlockParts(configs, table, block);
    BlockFieldsWellFormed(table, block);
    InferIff(configs, note.fields, note.noteType);
  }

  /** Each note of a successful read comes from a block of the file: the
      `i` returned. */
  lemma ReadNoteFrom(configs: seq<Models.NoteTypeConfig>, content: string, k: nat) returns (i: nat)
    requires ReadSpec(configs, content).Ok? && k < |ReadSpec(configs, content).value|
    ensures i < |Text.Split(content, Config.NoteSeparator)|
    ensures Outcome(configs, PrefixTable(configs), Text.Split(content, Config.NoteSeparator)[i])
      == Some(Ok(ReadSpec(configs, content).value[k]))
  {
    var table := PrefixTable(configs);
    var blocks := Text.Split(content, Config.NoteSeparator);
    var outcomes := Outcomes(configs, table, blocks);
    GatherFrom(outcomes, k);
    i :| 0 <= i < |outcomes| && outcomes[i] == Some(Ok(Gather(outcomes).value[k]));
    OutcomesAt(configs, table, blocks, i);
  }

  /** Every note of a successful read passed validation against its
      inferred type. */
  lemma ReadAccepted(configs: seq<Models.NoteTypeConfig>, content: string, k: nat)
    requires ReadSpec(configs, content).Ok? && k < |ReadSpec(configs, content).value|
    ensures Accepted(configs, PrefixTable(configs), ReadSpec(configs, content).value[k])
  {
    var table := PrefixTable(configs);
    var blocks := Text.Split(content, Config.NoteSeparator);
    var note := ReadSpec(configs, content).value[k];
    var i := ReadNoteFrom(configs, content, k);
    ReadBlockAccepted(configs, table, blocks[i]);
  }

  // ---------------------------------------------------------------- the loops

  /** The loops over the configured types' fields that fill the prefix
      table. */
  method BuildPrefixTable(configs: seq<Models.NoteTypeConfig>) returns (table: Dicts.Dict<string, string>)
    ensures table == PrefixTable(configs)
  {
    table := Dicts.Empty();
    for c := 0 to |configs|
      invariant table == PrefixTable(configs[..c])
    {
      Seqs.TakeTake(configs, c + 1, c);
      var fields := configs[c].fields;
      ghost var start := table;
      for i := 0 to |fields|
        invariant table == PutFields(start, fields[..i])
      {
        Seqs.TakeTake(fields, i + 1, i);
        var f := fields[i];
        if f.prefix.Some? && f.prefix.value != "" {
          table := Dicts.Put(table, f.prefix.value, f.name);
        }
      }
      Seqs.TakeAll(fields);
    }
    Seqs.TakeAll(configs);
  }

  /** The scan of the prefix table, in its order, for the first prefix the
      line opens. */
  method FindOpening(table: Dicts.Dict<string, string>, line: string) returns (m: Option<nat>)
    ensures m == FirstOpening(table.keys, line)
  {
    var i := 0;
    while i < |table.keys|
      invariant 0 <= i <= |table.keys|
      invariant forall j :: 0 <= j < i ==> !Opens(line, table.keys[j])
    {
      var prefix := table.keys[i];
      if Text.StartsWith(line, prefix + " ") || line == prefix {
        return Some(i);
      }
      i := i + 1;
    }
    return None;
  }

  /** A failed line stays failed whatever lines follow. */
  lemma {:induction false} RunErrSticks(table: Dicts.Dict<string, string>, lines: seq<string>, k: nat)
    requires table.Valid() && k <= |lines|
    requires ParseLines(table, lines[..k]).Err?
    ensures ParseLines(table, lines) == ParseLines(table, lines[..k])
    decreases |lines| - k
  {
    if k < |lines| {
      var n := |lines| - 1;
      Seqs.TakeTake(lines, n, k);
      RunErrSticks(table, lines[..n], k);
    } else {
      Seqs.TakeAll(lines);
    }
  }

  /** One pass of the line loop of `read_markdown_file`, on the loop's
      locals `st`. */
  method ApplyLine(table: Dicts.Dict<string, string>, st: BlockState, line: string) returns (r: Result<BlockState>)
    requires table.Valid()
    ensures r == Step(table, st, line)
  {
    var next := st;
    var keyMatch := NoteKeyOf(line);
    if IsFence(line) {
      next := next.(inCode := !st.inCode);
      if st.current != "" {
        next := next.(content := st.content + [line]);
      }
      return Ok(next);
    }
    if keyMatch.Some? {
      return Ok(next.(noteKey := keyMatch));
    }
    if st.inCode {
      if st.current != "" {
        next := next.(content := st.content + [line]);
      }
      return Ok(next);
    }
    var m := FindOpening(table, line);
    if m.Some? {
      var prefix := table.keys[m.value];
      var name := table.items[prefix];
      if name in st.seen {
        return Err(DuplicateMessage(prefix, st.noteKey));
      }
      next := next.(seen := st.seen + {name});
      if st.current != "" {
        next := next.(fields := st.fields + [(st.current, FieldText(st.content))]);
      }
      next := next.(content := if Text.StartsWith(line, prefix + " ") then [line[|prefix| + 1..]] else []);
      next := next.(current := name);
    } else if st.current != "" {
      next := next.(content := st.content + [line]);
    }
    return Ok(next);
  }

  /** The line loop of `read_markdown_file` over one block's lines. */
  method RunLines(table: Dicts.Dict<string, string>, lines: seq<string>) returns (r: Result<BlockState>)
    requires table.Valid()
    ensures r == ParseLines(table, lines)
  {
    var st := Start;
    for k := 0 to |lines|
      invariant ParseLines(table, lines[..k]) == Ok(st)
    {
      Seqs.TakeTake(lines, k + 1, k);
      var next := ApplyLine(table, st, lines[k]);
      if next.Err? {
        RunErrSticks(table, lines, k + 1);
        return Err(next.error);
      }
      st := next.value;
    }
    Seqs.TakeAll(lines);
    return Ok(st);
  }

  /** One block of `read_markdown_file`: the line loop, then the open field
      is closed and a block without fields is refused. */
  method ParseBlock(table: Dicts.Dict<string, string>, block: string) returns (r: Result<(Option<string>, seq<(string, string)>)>)
    requires table.Valid()
    ensures r == BlockFields(table, block)
  {
    var lines := Text.Split(Text.Strip(block), "\n");
    var run := RunLines(table, lines);
    if run.Err? {
      return Err(run.error);
    }
    var st := run.value;
    var fields := st.fields;
    if st.current != "" {
      fields := fields + [(st.current, FieldText(st.content))];
    }
    if fields == [] {
      return Err(NoPrefixMessage(block));
    }
    return Ok((st.noteKey, fields));
  }

  /** The candidate loop of `_infer_note_type`. */
  method Infer(configs: seq<Models.NoteTypeConfig>, fields: seq<(string, string)>) returns (r: Result<string>)
    ensures r == InferSpec(configs, fields)
  {
    var noteFields := NoteFieldNames(fields);
    var candidates: seq<string> := [];
    for c := 0 to |configs|
      invariant candidates == Candidates(configs[..c], noteFields)
    {
      Seqs.TakeTake(configs, c + 1, c);
      var accepted := CheckCandidate(configs[c], noteFields);
      if accepted {
        candidates := candidates + [configs[c].name];
      }
    }
    Seqs.TakeAll(configs);
    if |candidates| == 0 {
      return Err("Cannot determine note type from fields: " + Text.Join(Seqs.Firsts(fields), ", "));
    }
    if |candidates| > 1 {
      return Err("Ambiguous note type: matches multiple types: " + Text.Join(candidates, ", "));
    }
    return Ok(candidates[0]);
  }

  /** The body of the loop over the configured types, with the set
      comprehensions of the source. */
  method CheckCandidate(config: Models.NoteTypeConfig, noteFields: set<string>) returns (accepted: bool)
    ensures accepted == IsCandidate(config, noteFields)
  {
    var all := set f | f in config.fields :: f.name;
    var ident := set f | f in config.fields && f.identifying :: f.name;
    FieldNamesIff(config.fields, false);
    FieldNamesIff(config.fields, true);
    ChoiceNamesIff(config.fields);
    accepted := false;
    if noteFields <= all {
      if config.isChoice {
        var baseIdent := set n | n in ident && !IsChoiceField(n);
        var choiceFields := set n | n in all && IsChoiceField(n);
        accepted := baseIdent <= noteFields && noteFields * choiceFields != {};
      } else {
        accepted := ident <= noteFields;
      }
    }
  }


  /** The block loop of `read_markdown_file`. */
  method ReadAll(configs: seq<Models.NoteTypeConfig>, table: Dicts.Dict<string, string>, blocks: seq<string>)
    returns (r: Result<seq<Models.Note>>)
    requires table.Valid()
    ensures r == Gather(Outcomes(configs, table, blocks))
  {
    var notes: seq<Models.Note> := [];
    for b := 0 to |blocks|
      invariant Gather(Outcomes(configs, table, blocks[..b])) == Ok(notes)
    {
      OutcomesSnoc(configs, table, blocks, b);
      GatherSnoc(Outcomes(configs, table, blocks[..b]), Outcome(configs, table, blocks[b]));
      var block := blocks[b];
      if Skipped(block) {
        continue;
      }
      var note := ReadOne(configs, table, block);
      if note.Err? {
        ReadFailsAt(configs, table, blocks, b);
        return Err(note.error);
      }
      notes := notes + [note.value];
    }
    Seqs.TakeAll(blocks);
    return Ok(notes);
  }

  /** A block that fails to read fails the whole read with its error. */
  lemma ReadFailsAt(configs: seq<Models.NoteTypeConfig>, table: Dicts.Dict<string, string>, blocks: seq<string>, b: nat)
    requires table.Valid() && b < |blocks|
    requires Gather(Outcomes(configs, table, blocks[..b + 1])).Err?
    ensures Gather(Outcomes(configs, table, blocks)) == Gather(Outcomes(configs, table, blocks[..b + 1]))
  {
    OutcomesPrefix(configs, table, blocks, b + 1);
    GatherErrSticks(Outcomes(configs, table, blocks), b + 1);
  }


  /** One block: parse, infer the type, validate. */
  method ReadOne(configs: seq<Models.NoteTypeConfig>, table: Dicts.Dict<string, string>, block: string)
    returns (r: Result<Models.Note>)
    requires table.Valid()
    ensures r == ReadBlock(configs, table, block)
  {
    var parsed := ParseBlock(table, block);
    if parsed.Err? {
      return Err(parsed.error);
    }
    var (noteKey, fields) := parsed.value;
    var t := Infer(configs, fields);
    if t.Err? {
      return Err(t.error);
    }
    InferNamesConfig(configs, fields);
    var note := Models.Note(noteKey, t.value, fields);
    var errors := Models.Validate(note, FirstNamed(configs, t.value));
    if errors.Err? {
      return Err(errors.error);
    }
    if errors.value != [] {
      return Err(InvalidMessage(errors.value));
    }
    return Ok(note);
  }

  /** The adapter's Markdown side: the configured note types and the
      reading of a deck file's text. */
  class FileSystemAdapter {
    var configs: seq<Models.NoteTypeConfig>

    constructor()
      ensures configs == []
    {
      configs := [];
    }

    /** `set_configs`: replaces the configured note types. */
    method SetConfigs(newConfigs: seq<Models.NoteTypeConfig>)
      modifies this
      ensures configs == newConfigs
    {
      configs := newConfigs;
    }

    /** `read_markdown_file` over the file's text: the notes of its blocks,
        or the first block's error. */
    method ReadMarkdownFile(content: string) returns (r: Result<seq<Models.Note>>)
      ensures r == ReadSpec(configs, content)
    {
      var table := BuildPrefixTable(configs);
      var blocks := Text.Split(content, Config.NoteSeparator);
      r := ReadAll(configs, table, blocks);
    }

    /** `_infer_note_type` over the configured types. */
    method InferNoteType(fields: seq<(string, string)>) returns (r: Result<string>)
      ensures r == InferSpec(configs, fields)
    {
      r := Infer(configs, fields);
    }
  }
}
