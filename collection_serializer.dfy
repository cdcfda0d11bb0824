// The JSON dump of a collection and its way back to Markdown files
// (collection_serializer.py). The file system, the JSON encoder and the
// clock stay outside: a deck file arrives as its stem and either its
// parsed notes or the parse error, a JSON deck as a typed record.

module CollectionSerializer {
  import opened Wrappers
  import Text
  import Models
  import Fs
  import Seqs

  // ---------------------------------------------------------------- records

  /** One note of the JSON document. A missing or null `note_key` or
      `note_type` is `None`. */
  datatype NoteRecord = NoteRecord(noteKey: Option<string>, noteType: Option<string>, fields: seq<(string, string)>)

  /** One deck of the JSON document. */
  datatype DeckRecord = DeckRecord(name: string, notes: seq<NoteRecord>)

  /** What `serialize_collection_to_json` returns (without the time stamp),
      and the parse errors it collected. */
  datatype Serialized = Serialized(decks: seq<DeckRecord>, errors: seq<string>)

  /** The deck a file stem names. */
  function DeckNameOf(stem: string): string {
    Text.ReplaceAll(stem, "__", "::")
  }

  /** The file stem a deck name is written to. */
  function FileStemOf(name: string): string {
    Text.ReplaceAll(name, "::", "__")
  }

  /** A deck name without underscores survives the trip to its file name
      and back. */
  lemma DeckNameRoundTrip(name: string)
    requires '_' !in name
    ensures DeckNameOf(FileStemOf(name)) == name
  {
    Text.ReplaceRoundTrip(name, "::", "__");
  }

  // ---------------------------------------------------------------- serialize

  function RecordOf(n: Models.Note): NoteRecord {
    NoteRecord(n.noteKey, Some(n.noteType), n.fields)
  }

  function RecordsOf(notes: seq<Models.Note>): (r: seq<NoteRecord>)
    ensures |r| == |notes| && forall i :: 0 <= i < |notes| ==> r[i] == RecordOf(notes[i])
  {
    seq(|notes|, i requires 0 <= i < |notes| => RecordOf(notes[i]))
  }

  /** A deck file as the serializer meets it: its stem, and its notes or
      why it could not be parsed. */
  type DeckFile = (string, Result<seq<Models.Note>>)

  /** One file of the loop: a parse error is collected, a deck with notes
      is appended, a deck without notes is dropped. */
  function SerializeStep(acc: Serialized, file: DeckFile): Serialized {
    match file.1
    case Err(e) => acc.(errors := acc.errors + ["Error parsing " + file.0 + ".md: " + e])
    case Ok(notes) =>
      if |notes| == 0 then acc
      else acc.(decks := acc.decks + [DeckRecord(DeckNameOf(file.0), RecordsOf(notes))])
  }

  function SerializeAll(files: seq<DeckFile>): Serialized
    decreases |files|
  {
    if |files| == 0 then Serialized([], [])
    else SerializeStep(SerializeAll(files[..|files| - 1]), files[|files| - 1])
  }

  /** The files that could not be parsed. */
  function Failed(files: seq<DeckFile>): nat
    decreases |files|
  {
    if |files| == 0 then 0
    else Failed(files[..|files| - 1]) + (if files[|files| - 1].1.Err? then 1 else 0)
  }

  /** The notes of the files that were parsed. */
  function ParsedNotes(files: seq<DeckFile>): nat
    decreases |files|
  {
    if |files| == 0 then 0
    else
      var f := files[|files| - 1];
      ParsedNotes(files[..|files| - 1]) + (if f.1.Ok? then |f.1.value| else 0)
  }

  function NotesIn(decks: seq<DeckRecord>): nat
    decreases |decks|
  {
    if |decks| == 0 then 0 else NotesIn(decks[..|decks| - 1]) + |decks[|decks| - 1].notes|
  }

  /** Every parse failure becomes one error and every parsed note one
      record. */
  lemma {:induction false} SerializedCounts(files: seq<DeckFile>)
    ensures |SerializeAll(files).errors| == Failed(files)
    ensures NotesIn(SerializeAll(files).decks) == ParsedNotes(files)
    decreases |files|
  {
    if |files| > 0 {
      var front := files[..|files| - 1];
      var f := files[|files| - 1];
      SerializedCounts(front);
      var acc := SerializeAll(front);
      if f.1.Ok? && |f.1.value| > 0 {
        var d := DeckRecord(DeckNameOf(f.0), RecordsOf(f.1.value));
        assert (acc.decks + [d])[..|acc.decks|] == acc.decks;
      }
    }
  }

  /** The deck of a parsed file with notes. */
  predicate DeckFrom(d: DeckRecord, f: DeckFile) {
    f.1.Ok? && |f.1.value| > 0 && d == DeckRecord(DeckNameOf(f.0), RecordsOf(f.1.value))
  }

  /** No deck is empty, and each deck is the deck of a parsed file, with
      that file's notes in order under the name its stem gives. */
  lemma {:induction false} SerializedDecks(files: seq<DeckFile>)
    ensures forall d :: d in SerializeAll(files).decks ==> |d.notes| > 0 && exists f :: f in files && DeckFrom(d, f)
    decreases |files|
  {
    if |files| > 0 {
      var front := files[..|files| - 1];
      SerializedDecks(front);
      assert forall g :: g in front ==> g in files;
      assert files[|files| - 1] in files;
    }
  }

  /** `serialize_collection_to_json`: a directory without the database is
      refused; otherwise every deck file is serialized in turn. */
  method SerializeCollection(dir: string, hasDb: bool, files: seq<DeckFile>) returns (r: Result<Serialized>)
    ensures !hasDb ==> r == Err("Not an AnkiOps collection: " + dir)
    ensures hasDb ==> r == Ok(SerializeAll(files))
  {
    if !hasDb {
      return Err("Not an AnkiOps collection: " + dir);
    }
    var decks: seq<DeckRecord> := [];
    var errors: seq<string> := [];
    for i := 0 to |files|
      invariant Serialized(decks, errors) == SerializeAll(files[..i])
    {
      assert files[..i + 1][..i] == files[..i];
      var stem := files[i].0;
      match files[i].1 {
        case Err(e) =>
          errors := errors + ["Error parsing " + stem + ".md: " + e];
        case Ok(notes) =>
          var records: seq<NoteRecord> := [];
          for j := 0 to |notes|
            invariant records == RecordsOf(notes[..j])
          {
            records := records + [RecordOf(notes[j])];
          }
          assert notes[..|notes|] == notes;
          if |records| > 0 {
            decks := decks + [DeckRecord(DeckNameOf(stem), records)];
          }
      }
    }
    assert files[..|files|] == files;
    r := Ok(Serialized(decks, errors));
  }

  // ---------------------------------------------------------------- deserialize

  /** `dict.get` on a JSON object: the value of the last pair with that key. */
  function Lookup(fields: seq<(string, string)>, name: string): (r: Option<string>)
    ensures r.Some? <==> exists i :: 0 <= i < |fields| && fields[i].0 == name
    ensures r.Some? ==> (name, r.value) in fields
    decreases |fields|
  {
    if |fields| == 0 then None
    else if fields[|fields| - 1].0 == name then Some(fields[|fields| - 1].1)
    else
      var r := Lookup(fields[..|fields| - 1], name);
      assert forall i :: 0 <= i < |fields| - 1 ==> fields[..|fields| - 1][i] == fields[i];
      r
  }

  /** `config_by_name.get(name)`: the last configuration with that name. */
  function ConfigNamed(configs: seq<Models.NoteTypeConfig>, name: string): (r: Option<Models.NoteTypeConfig>)
    ensures r.Some? ==> r.value in configs && r.value.name == name
    ensures r.None? ==> forall c :: c in configs ==> c.name != name
    decreases |configs|
  {
    if |configs| == 0 then None
    else if configs[|configs| - 1].name == name then Some(configs[|configs| - 1])
    else ConfigNamed(configs[..|configs| - 1], name)
  }

  /** Python truthiness of an optional string. */
  predicate Truthy(s: Option<string>) {
    s.Some? && s.value != ""
  }

  /** The note's type: its own when it has one, otherwise the inferred one. */
  function TypeOf(n: NoteRecord, configs: seq<Models.NoteTypeConfig>): Result<string> {
    if Truthy(n.noteType) then Ok(n.noteType.value) else Fs.InferSpec(configs, n.fields)
  }

  /** One line per field of the type, in the type's order, for every field
      that has both a prefix and non-empty content. */
  function FieldLinesOf(fields: seq<Models.Field>, values: seq<(string, string)>): seq<string>
    decreases |fields|
  {
    if |fields| == 0 then []
    else
      var f := fields[|fields| - 1];
      var content := Lookup(values, f.name);
      FieldLinesOf(fields[..|fields| - 1], values)
        + (if Truthy(content) && Truthy(f.prefix) then [f.prefix.value + " " + content.value] else [])
  }

  function KeyLines(n: NoteRecord): seq<string> {
    if Truthy(n.noteKey) then ["<!-- note_key: " + n.noteKey.value + " -->"] else []
  }

  /** The lines of one note before its separator; `None` when its type can
      neither be read nor inferred, and the note is skipped. */
  function NoteBlock(n: NoteRecord, configs: seq<Models.NoteTypeConfig>): Option<seq<string>> {
    match TypeOf(n, configs)
    case Err(_) => None
    case Ok(t) =>
      Some(KeyLines(n) + match ConfigNamed(configs, t) {
        case None => []
        case Some(c) => FieldLinesOf(c.fields, n.fields)
      })
  }

  /** The lines that close every note. */
  const Separator: seq<string> := ["", "---", ""]

  /** The lines of a deck before the trailing separator is trimmed. */
  function DeckLines(notes: seq<NoteRecord>, configs: seq<Models.NoteTypeConfig>): seq<string>
    decreases |notes|
  {
    if |notes| == 0 then []
    else
      DeckLines(notes[..|notes| - 1], configs)
        + match NoteBlock(notes[|notes| - 1], configs) {
          case None => []
          case Some(b) => b + Separator
        }
  }

  predicate IsSeparatorLine(line: string) {
    line == "" || line == "---"
  }

  /** The trailing-separator trim: blank and `---` lines are dropped from
      the end. */
  function Trimmed(lines: seq<string>): seq<string>
    decreases |lines|
  {
    if |lines| > 0 && IsSeparatorLine(lines[|lines| - 1]) then Trimmed(lines[..|lines| - 1]) else lines
  }

  /** The trim keeps a prefix, ends on a line that is no separator, and
      drops nothing but separators. */
  lemma {:induction false} TrimmedMeans(lines: seq<string>)
    ensures |Trimmed(lines)| <= |lines| && Trimmed(lines) == lines[..|Trimmed(lines)|]
    ensures |Trimmed(lines)| > 0 ==> !IsSeparatorLine(Trimmed(lines)[|Trimmed(lines)| - 1])
    ensures forall i :: |Trimmed(lines)| <= i < |lines| ==> IsSeparatorLine(lines[i])
    decreases |lines|
  {
    if |lines| > 0 && IsSeparatorLine(lines[|lines| - 1]) {
      var front := lines[..|lines| - 1];
      TrimmedMeans(front);
      assert Trimmed(lines) == Trimmed(front);
      assert front[..|Trimmed(front)|] == lines[..|Trimmed(front)|];
    }
  }

  /** The text of a deck file. */
  function DeckContent(notes: seq<NoteRecord>, configs: seq<Models.NoteTypeConfig>): string {
    Text.Join(Trimmed(DeckLines(notes, configs)), "\n")
  }

  // ------------------------------------------------ the file is the notes, separated

  /** The blocks of the notes that are not skipped. */
  function Blocks(notes: seq<NoteRecord>, configs: seq<Models.NoteTypeConfig>): seq<seq<string>>
    decreases |notes|
  {
    if |notes| == 0 then []
    else
      Blocks(notes[..|notes| - 1], configs)
        + match NoteBlock(notes[|notes| - 1], configs) {
          case None => []
          case Some(b) => [b]
        }
  }

  /** Blocks with the separator lines between them but not after the last. */
  function Interleaved(blocks: seq<seq<string>>): seq<string>
    decreases |blocks|
  {
    if |blocks| == 0 then []
    else if |blocks| == 1 then blocks[0]
    else Interleaved(blocks[..|blocks| - 1]) + Separator + blocks[|blocks| - 1]
  }

  function BlockTexts(blocks: seq<seq<string>>): (r: seq<string>)
    ensures |r| == |blocks| && forall i :: 0 <= i < |blocks| ==> r[i] == Text.Join(blocks[i], "\n")
  {
    seq(|blocks|, i requires 0 <= i < |blocks| => Text.Join(blocks[i], "\n"))
  }

  /** Joining two non-empty runs of parts is joining each and putting the
      separator between them. */
  lemma {:induction false} JoinAppend(a: seq<string>, b: seq<string>, sep: string)
    requires |a| > 0 && |b| > 0
    ensures Text.Join(a + b, sep) == Text.Join(a, sep) + sep + Text.Join(b, sep)
    decreases |a|
  {
    if |a| == 1 {
      Text.JoinCons(a[0], b, sep);
    } else {
      assert a + b == [a[0]] + (a[1..] + b);
      Text.JoinCons(a[0], a[1..] + b, sep);
      JoinAppend(a[1..], b, sep);
      Text.JoinCons(a[0], a[1..], sep);
      assert [a[0]] + a[1..] == a;
    }
  }

  /** A key comment or field line is never a separator line. */
  lemma BlockLinesKept(n: NoteRecord, configs: seq<Models.NoteTypeConfig>)
    requires NoteBlock(n, configs).Some?
    ensures forall l :: l in NoteBlock(n, configs).value ==> !IsSeparatorLine(l)
  {
    var t := TypeOf(n, configs).value;
    var c := ConfigNamed(configs, t);
    if c.Some? {
      FieldLinesSpaced(c.value.fields, n.fields);
    }
  }

  lemma {:induction false} FieldLinesSpaced(fields: seq<Models.Field>, values: seq<(string, string)>)
    ensures forall l :: l in FieldLinesOf(fields, values) ==> ' ' in l
    decreases |fields|
  {
    if |fields| > 0 {
      var f := fields[|fields| - 1];
      FieldLinesSpaced(fields[..|fields| - 1], values);
      var content := Lookup(values, f.name);
      if Truthy(content) && Truthy(f.prefix) {
        var line := f.prefix.value + " " + content.value;
        assert line[|f.prefix.value|] == ' ';
      }
    }
  }

  /** The deck's lines are the kept blocks interleaved with separators,
      plus one closing separator when any block is kept. */
  lemma {:induction false} DeckLinesInterleaved(notes: seq<NoteRecord>, configs: seq<Models.NoteTypeConfig>)
    ensures DeckLines(notes, configs) ==
      if |Blocks(notes, configs)| == 0 then [] else Interleaved(Blocks(notes, configs)) + Separator
    decreases |notes|
  {
    if |notes| > 0 {
      var front := notes[..|notes| - 1];
      DeckLinesInterleaved(front, configs);
      var bs := Blocks(front, configs);
      var nb := NoteBlock(notes[|notes| - 1], configs);
      if nb.None? {
        assert Blocks(notes, configs) == bs;
        assert DeckLines(notes, configs) == DeckLines(front, configs) + [];
      } else {
        var b := nb.value;
        assert Blocks(notes, configs) == bs + [b];
        assert DeckLines(notes, configs) == DeckLines(front, configs) + (b + Separator);
        InterleavedSnoc(bs, b);
      }
    }
  }

  /** One more block adds a separator and the block, or is the first block. */
  lemma InterleavedSnoc(bs: seq<seq<string>>, b: seq<string>)
    ensures Interleaved(bs + [b]) == if |bs| == 0 then b else Interleaved(bs) + Separator + b
  {
    var all := bs + [b];
    assert all[..|all| - 1] == bs;
  }

  /** When no kept note renders to nothing, the deck file is the notes'
      texts separated by the note separator of the Markdown format. */
  lemma {:induction false} ContentSeparated(notes: seq<NoteRecord>, configs: seq<Models.NoteTypeConfig>)
    requires forall b :: b in Blocks(notes, configs) ==> |b| > 0
    ensures DeckContent(notes, configs) == Text.Join(BlockTexts(Blocks(notes, configs)), "\n\n---\n\n")
  {
    var bs := Blocks(notes, configs);
    DeckLinesInterleaved(notes, configs);
    if |bs| > 0 {
      BlocksKept(notes, configs);
      InterleavedEnds(bs);
      TrimSeparator(Interleaved(bs));
      InterleavedJoin(bs);
    }
  }

  /** Every kept block is a note's block. */
  lemma {:induction false} BlocksKept(notes: seq<NoteRecord>, configs: seq<Models.NoteTypeConfig>)
    ensures forall b :: b in Blocks(notes, configs) ==> forall l :: l in b ==> !IsSeparatorLine(l)
    decreases |notes|
  {
    if |notes| > 0 {
      BlocksKept(notes[..|notes| - 1], configs);
      var n := notes[|notes| - 1];
      if NoteBlock(n, configs).Some? {
        BlockLinesKept(n, configs);
      }
    }
  }

  /** Interleaved blocks end on the last line of the last block. */
  lemma InterleavedEnds(bs: seq<seq<string>>)
    requires |bs| > 0 && forall b :: b in bs ==> |b| > 0 && forall l :: l in b ==> !IsSeparatorLine(l)
    ensures |Interleaved(bs)| > 0 && !IsSeparatorLine(Interleaved(bs)[|Interleaved(bs)| - 1])
  {
    var last := bs[|bs| - 1];
    assert last in bs;
    assert last[|last| - 1] in last;
    var all := Interleaved(bs);
    if |bs| == 1 {
      assert all == last;
    } else {
      var front := Interleaved(bs[..|bs| - 1]);
      assert all == (front + Separator) + last;
      assert all[|all| - 1] == last[|last| - 1];
    }
  }

  /** Trimming text that ends on a content line and then a separator
      drops exactly the separator. */
  lemma TrimSeparator(lines: seq<string>)
    requires |lines| > 0 && !IsSeparatorLine(lines[|lines| - 1])
    ensures Trimmed(lines + Separator) == lines
  {
    var s3 := lines + Separator;
    var s2 := lines + ["", "---"];
    var s1 := lines + [""];
    assert s3[..|s3| - 1] == s2;
    assert s2[..|s2| - 1] == s1;
    assert s1[..|s1| - 1] == lines;
    assert Trimmed(s3) == Trimmed(s2);
    assert Trimmed(s2) == Trimmed(s1);
    assert Trimmed(s1) == Trimmed(lines);
  }

  lemma {:induction false} InterleavedJoin(bs: seq<seq<string>>)
    requires forall b :: b in bs ==> |b| > 0
    ensures Text.Join(Interleaved(bs), "\n") == Text.Join(BlockTexts(bs), "\n\n---\n\n")
    decreases |bs|
  {
    if |bs| == 1 {
      assert Interleaved(bs) == bs[0];
      assert BlockTexts(bs) == [Text.Join(bs[0], "\n")];
      assert Text.Join(BlockTexts(bs), "\n\n---\n\n") == Text.Join(bs[0], "\n");
    } else if |bs| > 1 {
      var front := bs[..|bs| - 1];
      var last := bs[|bs| - 1];
      assert forall b :: b in front ==> b in bs;
      assert last in bs;
      InterleavedJoin(front);
      InterleavedNonEmpty(front);
      assert Interleaved(bs) == Interleaved(front) + Separator + last;
      SeparatorJoin(Interleaved(front), last);
      TextsSnoc(front, last);
      assert front + [last] == bs;
      JoinAppend(BlockTexts(front), [Text.Join(last, "\n")], "\n\n---\n\n");
    }
  }

  lemma TextsSnoc(front: seq<seq<string>>, last: seq<string>)
    ensures BlockTexts(front + [last]) == BlockTexts(front) + [Text.Join(last, "\n")]
  {
  }

  /** Lines, a separator, more lines: joined, the separator becomes the
      note separator. */
  lemma SeparatorJoin(a: seq<string>, b: seq<string>)
    requires |a| > 0 && |b| > 0
    ensures Text.Join(a + Separator + b, "\n") == Text.Join(a, "\n") + "\n\n---\n\n" + Text.Join(b, "\n")
  {
    var l3 := SeparatorLines(a, b);
    var j3 := SeparatedJoin(b);
    JoinAppend(a, l3, "\n");
    SeparatorGlue(Text.Join(a, "\n"), Text.Join(b, "\n"));
  }

  lemma SeparatorLines(a: seq<string>, b: seq<string>) returns (l: seq<string>)
    ensures l == [""] + (["---"] + ([""] + b)) && a + Separator + b == a + l && |l| > 0
  {
    l := [""] + (["---"] + ([""] + b));
    assert l == Separator + b;
  }

  lemma SeparatorGlue(ja: string, jb: string)
    ensures ja + "\n" + ("\n---\n\n" + jb) == ja + "\n\n---\n\n" + jb
  {
    assert ("\n" + "\n---\n\n") == "\n\n---\n\n";
  }

  /** The separator lines before a block, joined. */
  lemma SeparatedJoin(b: seq<string>) returns (j: string)
    requires |b| > 0
    ensures j == Text.Join([""] + (["---"] + ([""] + b)), "\n") && j == "\n---\n\n" + Text.Join(b, "\n")
  {
    var jb := Text.Join(b, "\n");
    var l1 := [""] + b;
    var l2 := ["---"] + l1;
    var l3 := [""] + l2;
    Text.JoinCons("", b, "\n");
    Text.JoinCons("---", l1, "\n");
    Text.JoinCons("", l2, "\n");
    j := Text.Join(l3, "\n");
  }

  lemma {:induction false} InterleavedNonEmpty(bs: seq<seq<string>>)
    requires |bs| > 0 && forall b :: b in bs ==> |b| > 0
    ensures |Interleaved(bs)| > 0
  {
    assert bs[|bs| - 1] in bs;
  }

  // ---------------------------------------------------------------- the deck loop

  /** What deserializing writes and counts. Every deck counts, and so does
      every note, skipped or not. */
  datatype Deserialized = Deserialized(writes: seq<(string, string)>, decks: nat, notes: nat)

  function DeserializeStep(acc: Deserialized, d: DeckRecord, configs: seq<Models.NoteTypeConfig>,
                           overwrite: bool, existing: set<string>): Deserialized
  {
    var w := WriteOf(d, configs);
    Deserialized(acc.writes + (if overwrite || w.0 !in existing then [w] else []),
                 acc.decks + 1, acc.notes + |d.notes|)
  }

  function DeserializeAll(decks: seq<DeckRecord>, configs: seq<Models.NoteTypeConfig>, overwrite: bool,
                          existing: set<string>): Deserialized
    decreases |decks|
  {
    if |decks| == 0 then Deserialized([], 0, 0)
    else DeserializeStep(DeserializeAll(decks[..|decks| - 1], configs, overwrite, existing), decks[|decks| - 1],
                         configs, overwrite, existing)
  }

  /** Every deck is counted, and so is every note of every deck. */
  lemma {:induction false} DeserializedCounts(decks: seq<DeckRecord>, configs: seq<Models.NoteTypeConfig>,
                                              overwrite: bool, existing: set<string>)
    ensures DeserializeAll(decks, configs, overwrite, existing).decks == |decks|
    ensures DeserializeAll(decks, configs, overwrite, existing).notes == NotesIn(decks)
    decreases |decks|
  {
    if |decks| > 0 {
      DeserializedCounts(decks[..|decks| - 1], configs, overwrite, existing);
    }
  }

  /** The write for a deck. */
  function WriteOf(d: DeckRecord, configs: seq<Models.NoteTypeConfig>): (string, string) {
    (FileStemOf(d.name) + ".md", DeckContent(d.notes, configs))
  }

  /** Only a deck's own file is written, and only when overwriting or when
      the file does not exist yet. */
  lemma {:induction false} WritesSound(decks: seq<DeckRecord>, configs: seq<Models.NoteTypeConfig>,
                                       overwrite: bool, existing: set<string>)
    ensures forall w :: w in DeserializeAll(decks, configs, overwrite, existing).writes ==>
      (overwrite || w.0 !in existing) && exists d :: d in decks && w == WriteOf(d, configs)
    decreases |decks|
  {
    if |decks| > 0 {
      var front := decks[..|decks| - 1];
      WritesSound(front, configs, overwrite, existing);
      assert forall d :: d in front ==> d in decks;
      assert decks[|decks| - 1] in decks;
    }
  }

  /** Every deck whose file may be written is written. */
  lemma {:induction false} WritesComplete(decks: seq<DeckRecord>, configs: seq<Models.NoteTypeConfig>,
                                          overwrite: bool, existing: set<string>)
    ensures forall d :: d in decks && (overwrite || WriteOf(d, configs).0 !in existing) ==>
      WriteOf(d, configs) in DeserializeAll(decks, configs, overwrite, existing).writes
    decreases |decks|
  {
    if |decks| > 0 {
      var front := decks[..|decks| - 1];
      WritesComplete(front, configs, overwrite, existing);
      assert forall d :: d in decks ==> d in front || d == decks[|decks| - 1];
    }
  }

  /** The lines of one note, appended. */
  method AppendNote(lines: seq<string>, n: NoteRecord, configs: seq<Models.NoteTypeConfig>)
    returns (r: seq<string>)
    ensures r == lines + match NoteBlock(n, configs) { case None => [] case Some(b) => b + Separator }
  {
    var t: Result<string>;
    if Truthy(n.noteType) {
      t := Ok(n.noteType.value);
    } else {
      t := Fs.Infer(configs, n.fields);
    }
    if t.Err? {
      return lines;
    }
    r := lines + KeyLines(n);
    var c := ConfigNamed(configs, t.value);
    if c.Some? {
      var fls: seq<string> := [];
      for i := 0 to |c.value.fields|
        invariant fls == FieldLinesOf(c.value.fields[..i], n.fields)
      {
        assert c.value.fields[..i + 1][..i] == c.value.fields[..i];
        var f := c.value.fields[i];
        var content := Lookup(n.fields, f.name);
        if Truthy(content) && Truthy(f.prefix) {
          fls := fls + [f.prefix.value + " " + content.value];
        }
      }
      assert c.value.fields[..|c.value.fields|] == c.value.fields;
      r := r + fls;
    }
    r := r + ["", "---", ""];
  }

  /** The trailing-separator loop. */
  method TrimTrailing(lines: seq<string>) returns (r: seq<string>)
    ensures r == Trimmed(lines)
  {
    r := lines;
    while |r| > 0 && IsSeparatorLine(r[|r| - 1])
      invariant Trimmed(r) == Trimmed(lines)
      decreases |r|
    {
      r := r[..|r| - 1];
    }
  }

  /** One deck: its lines built note by note, trimmed and joined. */
  method DeckText(notes: seq<NoteRecord>, configs: seq<Models.NoteTypeConfig>) returns (content: string)
    ensures content == DeckContent(notes, configs)
  {
    var lines: seq<string> := [];
    for i := 0 to |notes|
      invariant lines == DeckLines(notes[..i], configs)
    {
      assert notes[..i + 1][..i] == notes[..i];
      lines := AppendNote(lines, notes[i], configs);
    }
    assert notes[..|notes|] == notes;
    lines := TrimTrailing(lines);
    content := Text.Join(lines, "\n");
  }

  /** `deserialize_collection_from_json`: every deck is rendered and
      written unless its file exists and overwriting is off. */
  method DeserializeCollection(decks: seq<DeckRecord>, configs: seq<Models.NoteTypeConfig>, overwrite: bool,
                               existing: set<string>)
    returns (r: Deserialized)
    ensures r == DeserializeAll(decks, configs, overwrite, existing)
  {
    r := Deserialized([], 0, 0);
    for i := 0 to |decks|
      invariant r == DeserializeAll(decks[..i], configs, overwrite, existing)
    {
      assert decks[..i + 1][..i] == decks[..i];
      var d := decks[i];
      var file := FileStemOf(d.name) + ".md";
      var content := DeckText(d.notes, configs);
      if overwrite || file !in existing {
        r := r.(writes := r.writes + [(file, content)]);
      }
      r := r.(decks := r.decks + 1, notes := r.notes + |d.notes|);
    }
    assert decks[..|decks|] == decks;
  }
}
