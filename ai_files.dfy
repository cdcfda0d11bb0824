/** What the AI prompt, task and model-profile loaders share: `pathlib`
    name/suffix/stem arithmetic on POSIX path strings, the candidate files a
    reference names, pattern-list normalisation, the YAML top-level mapping
    check and the first-error message of `validate_config_model`
    (`ankiops/ai/config_utils.py`). Normalisation of repeated or trailing
    separators is not modelled. */
module AiFiles {
  import opened Wrappers
  import opened Json
  import Text
  import TaskSelection
  import LlmConfigLoader
  import Seqs

  // ---------------------------------------------------------------- paths

  predicate IsAbsolute(p: string) {
    |p| > 0 && p[0] == '/'
  }

  /** A character occurs at `i` and nowhere after it: `rfind` finds it. */
  lemma LastAt(s: string, c: char, i: nat)
    requires i < |s| && s[i] == c && forall j :: i < j < |s| ==> s[j] != c
    ensures Text.LastIndexOf(s, c) == Some(i)
  {
  }

  /** The character does not occur: `rfind` finds nothing. */
  lemma NoneAt(s: string, c: char)
    requires c !in s
    ensures Text.LastIndexOf(s, c) == None
  {
  }

  /** No character of `s` is `c`. */
  predicate Lacks(s: string, c: char) {
    forall k :: 0 <= k < |s| ==> s[k] != c
  }

  /** Everything up to and including the last "/": the parent part. */
  function DirPart(p: string): string {
    match Text.LastIndexOf(p, '/')
    case None => ""
    case Some(i) => p[..i + 1]
  }

  /** `PurePosixPath(p).name`: what follows the last "/". */
  function Name(p: string): string {
    match Text.LastIndexOf(p, '/')
    case None => p
    case Some(i) => p[i + 1..]
  }

  /** A path is its parent part, which is empty or ends in "/", followed by
      its name, which has no "/". */
  lemma PathParts(p: string)
    ensures DirPart(p) + Name(p) == p
    ensures Lacks(Name(p), '/')
    ensures DirPart(p) == [] || DirPart(p)[|DirPart(p)| - 1] == '/'
  {
    match Text.LastIndexOf(p, '/')
    case None =>
    case Some(i) =>
      assert p == p[..i + 1] + p[i + 1..];
  }

  /** A parent part followed by a name without "/" splits back into the
      two. */
  lemma NameOfParts(d: string, n: string)
    requires Lacks(n, '/') && (d == [] || d[|d| - 1] == '/')
    ensures Name(d + n) == n && DirPart(d + n) == d
  {
    var s := d + n;
    if d == [] {
      assert s == n;
      NoneAt(n, '/');
    } else {
      LastAt(s, '/', |d| - 1);
      assert s[|d|..] == n;
      assert s[..|d|] == d;
    }
  }

  /** Where the suffix of a name starts: at its last ".", unless that dot is
      the name's first or last character. */
  function SuffixStart(name: string): Option<nat> {
    match Text.LastIndexOf(name, '.')
    case Some(i) => if 0 < i < |name| - 1 then Some(i) else None
    case None => None
  }

  /** The suffix of a name: from its suffix start, or "". */
  function SuffixOf(name: string): string {
    match SuffixStart(name)
    case Some(i) => if i <= |name| then name[i..] else ""
    case None => ""
  }

  /** The stem of a name: up to its suffix start, or the whole name. */
  function StemOf(name: string): string {
    match SuffixStart(name)
    case Some(i) => if i <= |name| then name[..i] else name
    case None => name
  }

  /** `PurePosixPath(p).suffix`: "" when the name has none. */
  function Suffix(p: string): string {
    SuffixOf(Name(p))
  }

  /** `PurePosixPath(p).stem`. */
  function Stem(p: string): string {
    StemOf(Name(p))
  }

  /** The stem and the suffix make up the name; a name without a suffix is
      its own stem, and the stem of a non-empty name is never empty. */
  lemma StemSuffixOf(name: string)
    ensures StemOf(name) + SuffixOf(name) == name
    ensures SuffixOf(name) == "" ==> StemOf(name) == name
    ensures name != "" ==> StemOf(name) != ""
    ensures Lacks(name, '/') ==> Lacks(StemOf(name), '/')
  {
    match SuffixStart(name)
    case Some(i) =>
      assert name == name[..i] + name[i..];
    case None =>
  }

  /** A name whose suffix starts at `i` splits there. */
  lemma SplitAtSuffix(name: string, i: nat)
    requires SuffixStart(name) == Some(i)
    ensures i <= |name| && StemOf(name) == name[..i] && SuffixOf(name) == name[i..]
  {
  }

  /** `StemSuffixOf` for a path. */
  lemma StemSuffix(p: string)
    ensures Stem(p) + Suffix(p) == Name(p)
    ensures Suffix(p) == "" ==> Stem(p) == Name(p)
    ensures Name(p) != "" ==> Stem(p) != ""
    ensures Lacks(Stem(p), '/')
  {
    PathParts(p);
    StemSuffixOf(Name(p));
  }

  /** A suffix `with_suffix` accepts and that reads back as the suffix: a
      dot, then at least one character, no further dot and no "/". */
  predicate PlainSuffix(s: string) {
    |s| >= 2 && s[0] == '.' && Lacks(s, '/') && forall j :: 0 < j < |s| ==> s[j] != '.'
  }

  /** `PurePosixPath(p).with_suffix(s)`: the suffix is replaced, or added
      when there is none; a path with an empty name is refused. */
  function WithSuffix(p: string, s: string): (r: Result<string>)
    requires PlainSuffix(s)
  {
    if Name(p) == "" then Err("PosixPath('" + p + "') has an empty name")
    else Ok(DirPart(p) + Stem(p) + s)
  }

  /** The new path has the same parent and stem, and `s` as its suffix. */
  lemma WithSuffixShape(p: string, s: string)
    requires PlainSuffix(s)
    ensures WithSuffix(p, s).Err? <==> Name(p) == ""
    ensures WithSuffix(p, s).Ok? ==>
      var r := WithSuffix(p, s).value;
      DirPart(r) == DirPart(p) && Name(r) == Stem(p) + s && Suffix(r) == s && Stem(r) == Stem(p)
  {
    if Name(p) != "" {
      StemSuffix(p);
      PathParts(p);
      var d := DirPart(p);
      var n := NewName(Stem(p), s);
      Seqs.AppendAssoc(d, Stem(p), s);
      NameOfParts(d, n);
    }
  }

  /** The name `stem + s` keeps "/" out and has `s` as its suffix. */
  lemma SuffixedName(stem: string, s: string)
    requires stem != "" && Lacks(stem, '/') && PlainSuffix(s)
    ensures Lacks(stem + s, '/')
    ensures StemOf(stem + s) == stem && SuffixOf(stem + s) == s
  {
    var n := stem + s;
    LastAt(n, '.', |stem|);
    SplitAtSuffix(n, |stem|);
    assert n[..|stem|] == stem;
    assert n[|stem|..] == s;
  }

  function NewName(stem: string, s: string): (n: string)
    requires stem != "" && Lacks(stem, '/') && PlainSuffix(s)
    ensures n == stem + s && Lacks(n, '/') && StemOf(n) == stem && SuffixOf(n) == s
  {
    SuffixedName(stem, s);
    stem + s
  }

  /** `Path(directory) / ref`: an absolute reference replaces the
      directory. */
  function JoinPath(directory: string, ref: string): string {
    if IsAbsolute(ref) || directory == "" then ref
    else if directory[|directory| - 1] == '/' then directory + ref
    else directory + "/" + ref
  }

  /** The joined path has the reference's own name, hence its suffix and
      stem. */
  lemma JoinPathName(directory: string, ref: string)
    ensures Name(JoinPath(directory, ref)) == Name(ref)
    ensures Suffix(JoinPath(directory, ref)) == Suffix(ref)
    ensures Stem(JoinPath(directory, ref)) == Stem(ref)
  {
    if !(IsAbsolute(ref) || directory == "") {
      var prefix := if directory[|directory| - 1] == '/' then directory else directory + "/";
      assert JoinPath(directory, ref) == prefix + ref;
      PathParts(ref);
      var d := prefix + DirPart(ref);
      Seqs.AppendAssoc(prefix, DirPart(ref), Name(ref));
      NameOfParts(d, Name(ref));
    }
  }

  lemma YamlSuffixes()
    ensures PlainSuffix(".yaml") && PlainSuffix(".yml")
  {
  }

  /** `_candidate_prompt_paths` and `_candidate_task_paths`: a reference
      with a suffix names one file; one without is tried with `.yaml`, then
      with `.yml`. A relative reference is looked up in `directory`, an
      absolute one where it is. */
  function Candidates(directory: string, ref: string): (r: Result<seq<string>>)
  {
    YamlSuffixes();
    var base := JoinPath(directory, ref);
    if Suffix(ref) != "" then Ok([base])
    else
      var yaml :- WithSuffix(base, ".yaml");
      var yml :- WithSuffix(base, ".yml");
      Ok([yaml, yml])
  }

  /** One candidate for a reference with a suffix; otherwise the reference
      with `.yaml`, then with `.yml`, in the same place, refused only when
      the reference has no name at all. */
  lemma CandidatesShape(directory: string, ref: string)
    ensures Suffix(ref) != "" ==> Candidates(directory, ref) == Ok([JoinPath(directory, ref)])
    ensures Candidates(directory, ref).Err? <==> Suffix(ref) == "" && Name(ref) == ""
    ensures Suffix(ref) == "" && Candidates(directory, ref).Ok? ==>
      var c := Candidates(directory, ref).value;
      |c| == 2
      && Name(c[0]) == Name(ref) + ".yaml" && Name(c[1]) == Name(ref) + ".yml"
      && DirPart(c[0]) == DirPart(JoinPath(directory, ref))
      && DirPart(c[1]) == DirPart(JoinPath(directory, ref))
  {
    var base := JoinPath(directory, ref);
    JoinPathName(directory, ref);
    StemSuffix(ref);
    WithSuffixShape(base, ".yaml");
    WithSuffixShape(base, ".yml");
  }

  /** The position of the first candidate that is an existing file: the
      `for candidate in candidates` search of the resolvers, over the set of
      existing files. */
  function FirstExisting(candidates: seq<string>, files: set<string>): (r: Option<nat>)
    ensures r.Some? ==> (r.value < |candidates| && candidates[r.value] in files
                         && forall j :: 0 <= j < r.value ==> candidates[j] !in files)
    ensures r.None? <==> forall j :: 0 <= j < |candidates| ==> candidates[j] !in files
    decreases |candidates|
  {
    if |candidates| == 0 then None
    else if candidates[0] in files then Some(0)
    else
      match FirstExisting(candidates[1..], files)
      case None => None
      case Some(k) => Some(k + 1)
  }

  /** `", ".join(str(p) for p in candidates)`. */
  function Tried(candidates: seq<string>): string {
    Text.Join(candidates, ", ")
  }

  // ---------------------------------------------------------------- pattern lists

  /** A pattern-list value after normalisation: of the wrong type, empty once
      blanks are dropped, or the stripped non-blank patterns. */
  datatype Patterns = WrongType | NoPatterns | Patterns(items: seq<string>)

  /** The strings a pattern-list value holds: a single string, or a list
      whose every item is a string. */
  function PatternValues(raw: Json): (r: Option<seq<string>>)
    ensures raw.JStr? ==> r == Some([raw.s])
    ensures raw.JArr? ==> (r.Some? <==> forall i :: 0 <= i < |raw.items| ==> raw.items[i].JStr?)
    ensures raw.JArr? && r.Some? ==>
      |r.value| == |raw.items| && forall i :: 0 <= i < |raw.items| ==> raw.items[i] == JStr(r.value[i])
    ensures !raw.JStr? && !raw.JArr? ==> r.None?
  {
    match raw
    case JStr(s) => Some([s])
    case JArr(items) =>
      if forall i :: 0 <= i < |items| ==> items[i].JStr? then
        Some(seq(|items|, i requires 0 <= i < |items| => items[i].s))
      else None
    case _ => None
  }

  /** Strip every entry and drop the blank ones; nothing left is an
      error, and so is a value that is not a string or a list of strings. */
  function CleanPatterns(raw: Json): (r: Patterns)
    ensures r.WrongType? <==> PatternValues(raw).None?
    ensures r.Patterns? ==> |r.items| > 0 && forall p :: p in r.items ==> !Text.IsBlank(p)
    ensures r.Patterns? ==> r.items == TaskSelection.StrippedNonBlank(PatternValues(raw).value)
    ensures raw.JStr? ==>
      r == if Text.IsBlank(raw.s) then NoPatterns else Patterns([Text.Strip(raw.s)])
  {
    match PatternValues(raw)
    case None => WrongType
    case Some(values) =>
      var cleaned := TaskSelection.StrippedNonBlank(values);
      TaskSelection.NoBlankTargets(values);
      if cleaned == [] then NoPatterns else Patterns(cleaned)
  }

  /** The patterns kept are exactly the stripped forms of the non-blank
      values given, and each is already stripped. */
  lemma PatternsIff(raw: Json, t: string)
    requires CleanPatterns(raw).Patterns?
    ensures t in CleanPatterns(raw).items <==>
      !Text.IsBlank(t) && exists v :: v in PatternValues(raw).value && Text.Strip(v) == t
    ensures t in CleanPatterns(raw).items ==> Text.Strip(t) == t
  {
    var values := PatternValues(raw).value;
    TaskSelection.StrippedNonBlankIff(values, t);
    if t in CleanPatterns(raw).items {
      var v :| v in values && Text.Strip(v) == t;
      Text.StripCharsIdempotent(v, Text.Whitespace);
    }
  }

  /** `_normalize_pattern_list`, the pydantic field validator of the prompt
      and task files: `None` stays `None`, anything else must clean to a
      non-empty pattern list. */
  function NormalizePatternList(value: Option<Json>): (r: Result<Option<seq<string>>>)
    ensures value.None? || value == Some(JNull) ==> r == Ok(None)
    ensures value.Some? && value != Some(JNull) ==>
      match CleanPatterns(value.value)
      case WrongType => r == Err("must be a string or list of strings")
      case NoPatterns => r == Err("must not be empty")
      case Patterns(items) => r == Ok(Some(items))
  {
    match value
    case None => Ok(None)
    case Some(JNull) => Ok(None)
    case Some(v) =>
      match CleanPatterns(v)
      case WrongType => Err("must be a string or list of strings")
      case NoPatterns => Err("must not be empty")
      case Patterns(items) => Ok(Some(items))
  }

  /** `_coerce_pattern_list(raw, key=key, fallback=fallback)` of `ai.py` and
      `ai/prompts.py`: a missing or null value takes the fallback. */
  function CoercePatternList(raw: Option<Json>, key: string, fallback: seq<string>): (r: Result<seq<string>>)
    ensures raw.None? || raw == Some(JNull) ==> r == Ok(fallback)
    ensures raw.Some? && raw != Some(JNull) ==>
      match CleanPatterns(raw.value)
      case WrongType => r == Err("Prompt key '" + key + "' must be a string or list of strings.")
      case NoPatterns => r == Err("Prompt key '" + key + "' must not be empty.")
      case Patterns(items) => r == Ok(items)
  {
    match raw
    case None => Ok(fallback)
    case Some(JNull) => Ok(fallback)
    case Some(v) =>
      match CleanPatterns(v)
      case WrongType => Err("Prompt key '" + key + "' must be a string or list of strings.")
      case NoPatterns => Err("Prompt key '" + key + "' must not be empty.")
      case Patterns(items) => Ok(items)
  }

  // ---------------------------------------------------------------- YAML files

  /** `load_yaml_mapping` after parsing: a document Python reads as false
      becomes `{}`; anything else but a mapping is refused. */
  function LoadYamlMapping(path: string, document: Json, mappingLabel: string): (r: Result<seq<(string, Json)>>)
    ensures r.Ok? <==> document.JObj? || LlmConfigLoader.Falsy(document)
    ensures document.JObj? ==> r == Ok(document.members)
    ensures r.Err? ==> r.error == mappingLabel + " must be a YAML mapping: " + path
  {
    if LlmConfigLoader.Falsy(document) then Ok([])
    else if document.JObj? then Ok(document.members)
    else Err(mappingLabel + " must be a YAML mapping: " + path)
  }

  /** The first error pydantic reports for a file: a dotted field path
      (empty for a whole-model check) and a message. */
  datatype FieldError = FieldError(loc: string, detail: string)

  /** A `ValueError` raised by a validator, as pydantic words it. */
  function ValueError(loc: string, message: string): FieldError {
    FieldError(loc, "Value error, " + message)
  }

  /** What pydantic's own type checks (required keys, unknown keys, value
      types) made of a mapping: the typed record, or their first error. */
  datatype Schema<+T> = Typed(raw: T) | Untyped(error: FieldError) {
    predicate IsFailure() { Untyped? }

    function PropagateFailure<U>(): Schema<U>
      requires Untyped?
    {
      Untyped(error)
    }

    function Extract(): T
      requires Typed?
    {
      raw
    }
  }

  /** `validate_config_model`'s message for the first error. */
  function InvalidConfig(configLabel: string, path: string, e: FieldError): string {
    if e.loc != "" then "Invalid " + configLabel + " '" + path + "' field '" + e.loc + "': " + e.detail
    else "Invalid " + configLabel + " '" + path + "': " + e.detail
  }

  // ---------------------------------------------------------------- str()

  /** Python's `repr` of a JSON value; strings are quoted with single quotes
      and not escaped. */
  function Repr(j: Json): string {
    match j
    case JNull => "None"
    case JBool(b) => if b then "True" else "False"
    case JNum(n) => Text.IntToString(n)
    case JStr(s) => "'" + s + "'"
    case JArr(items) =>
      "[" + Text.Join(seq(|items|, i requires 0 <= i < |items| => Repr(items[i])), ", ") + "]"
    case JObj(members) =>
      "{" + Text.Join(seq(|members|, i requires 0 <= i < |members| =>
        assert members[i] in members;
        "'" + members[i].0 + "': " + Repr(members[i].1)), ", ") + "}"
  }

  /** Python's `str` of a JSON value: a string is itself. */
  function PyStr(j: Json): (r: string)
    ensures j.JStr? ==> r == j.s
  {
    if j.JStr? then j.s else Repr(j)
  }
}
