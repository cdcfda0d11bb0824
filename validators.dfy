/** Reading the JSON object an AI model answered with, and normalising the
    supported batch-response shapes into one map keyed by note key. The JSON
    decoder itself is a parameter: `loads(text)` is the decoded value, or
    `None` when `json.loads` raises. */
module Validators {
  import opened Wrappers
  import opened Json
  import Text

  const NotAnObject := "AI response was not a valid JSON object"
  /** The message of the decoder's own exception when the brace candidate
      does not decode; `parse_json_object` does not catch it. */
  const DecodeFailed := "JSONDecodeError"

  /** The span from the first `{` to the last `}`, when the first comes
      before the last. */
  function BraceSpan(body: string): (r: Option<(nat, nat)>)
    ensures r.Some? ==> r.value.0 < r.value.1 < |body| && body[r.value.0] == '{' && body[r.value.1] == '}'
  {
    var first := Text.Find(body, "{");
    var last := Text.RFind(body, "}");
    if first.Some? && last.Some? && first.value < last.value then
      assert body[first.value] == '{' by { assert body[first.value..first.value + 1][0] == body[first.value]; }
      assert body[last.value] == '}' by { assert body[last.value..last.value + 1][0] == body[last.value]; }
      Some((first.value, last.value))
    else None
  }

  /** `loads(text)` decodes to an object. */
  predicate DecodesToObject(loads: string -> Option<Json>, text: string) {
    loads(text).Some? && loads(text).value.JObj?
  }

  /** `parse_json_object` on the already stripped text: the text itself if
      it decodes to an object; otherwise the brace span, which must decode to
      an object. */
  function ParseBody(body: string, loads: string -> Option<Json>): (r: Result<seq<(string, Json)>>)
    ensures DecodesToObject(loads, body) ==> r == Ok(loads(body).value.members)
    ensures r.Ok? ==>
      loads(body) == Some(JObj(r.value))
      || (BraceSpan(body).Some?
          && loads(body[BraceSpan(body).value.0..BraceSpan(body).value.1 + 1]) == Some(JObj(r.value)))
    ensures BraceSpan(body).None? && !DecodesToObject(loads, body) ==> r == Err(NotAnObject)
  {
    if DecodesToObject(loads, body) then Ok(loads(body).value.members)
    else if BraceSpan(body).None? then Err(NotAnObject)
    else
      var candidate := body[BraceSpan(body).value.0..BraceSpan(body).value.1 + 1];
      if loads(candidate).None? then Err(DecodeFailed)
      else if loads(candidate).value.JObj? then Ok(loads(candidate).value.members)
      else Err(NotAnObject)
  }

  /** `parse_json_object`. */
  function ParseJsonObject(content: string, loads: string -> Option<Json>): Result<seq<(string, Json)>> {
    ParseBody(Text.Strip(content), loads)
  }

  /** Text without a `{` has no brace span. */
  lemma NoBraceNoSpan(body: string)
    requires forall i :: 0 <= i < |body| ==> body[i] != '{'
    ensures BraceSpan(body).None?
  {
  }

  /** In brace-free text around an object, the span is exactly the object. */
  lemma SpanOfWrapped(pre: string, obj: string, post: string)
    requires forall i :: 0 <= i < |pre| ==> pre[i] != '{'
    requires forall i :: 0 <= i < |post| ==> post[i] != '}'
    requires |obj| >= 2 && obj[0] == '{' && obj[|obj| - 1] == '}'
    ensures var body := pre + obj + post;
      BraceSpan(body) == Some((|pre|, |pre| + |obj| - 1))
  {
    var body := pre + obj + post;
    var a := |pre|;
    var b := |pre| + |obj| - 1;
    assert Text.OccursAt(body, "{", a) by { assert body[a..a + 1] == [body[a]]; }
    assert Text.OccursAt(body, "}", b) by { assert body[b..b + 1] == [body[b]]; }
    Text.FindFirst(body, "{", a);
    Text.RFindLast(body, "}", b);
    var f := Text.Find(body, "{").value;
    var l := Text.RFind(body, "}").value;
    assert body[f] == '{' by { assert body[f..f + 1][0] == body[f]; }
    assert body[l] == '}' by { assert body[l..l + 1][0] == body[l]; }
    forall k | 0 <= k < a ensures body[k] != '{' {
      assert body[k] == pre[k];
    }
    forall k | b < k < |body| ensures body[k] != '}' {
      assert body[k] == post[k - |pre| - |obj|];
    }
  }

  /** An object wrapped in brace-free text (a code fence, a sentence) is
      recovered by the fallback. */
  lemma WrappedObjectRecovered(pre: string, obj: string, post: string, loads: string -> Option<Json>,
                               members: seq<(string, Json)>)
    requires forall i :: 0 <= i < |pre| ==> pre[i] != '{'
    requires forall i :: 0 <= i < |post| ==> post[i] != '}'
    requires |obj| >= 2 && obj[0] == '{' && obj[|obj| - 1] == '}'
    requires !DecodesToObject(loads, pre + obj + post)
    requires loads(obj) == Some(JObj(members))
    ensures ParseBody(pre + obj + post, loads) == Ok(members)
  {
    var body := pre + obj + post;
    SpanOfWrapped(pre, obj, post);
    var candidate := body[|pre|..|pre| + |obj|];
    assert candidate == obj;
    assert loads(candidate) == Some(JObj(members));
  }

  // ---------------------------------------------------------------- batch shapes

  /** Edited notes keyed by note key; each value is the note object's members. */
  type Normalized = map<string, seq<(string, Json)>>

  const ListItemNotObject := "Batch response list must contain JSON objects"
  const MissingNoteKey := "Batch response note is missing a valid note_key"
  const BadShape := "Batch response must contain a mapping or list in 'notes'"
  const BlankMapKey := "Batch response keys must be non-empty note_key strings"
  const MapValueNotObject := "Batch response map values must be JSON objects"

  function DuplicateKey(key: string): string {
    "Batch response contains duplicate note_key '" + key + "'"
  }

  /** A `note_key` member that is a non-blank string. */
  predicate ValidKey(v: Option<Json>) {
    v.Some? && v.value.JStr? && !Text.IsBlank(v.value.s)
  }

  /** One element of a response, once checked: the reason it is refused, or
      the key it is stored under and the note object's members. */
  datatype Entry = Bad(message: string) | Good(key: string, members: seq<(string, Json)>)

  /** An item of the list form. */
  function ListEntry(item: Json): (e: Entry)
    ensures e.Good? <==> item.JObj? && ValidKey(Get(item, "note_key"))
    ensures e.Good? ==> Get(item, "note_key") == Some(JStr(e.key)) && e.members == item.members
  {
    if !item.JObj? then Bad(ListItemNotObject)
    else
      var k := Get(item, "note_key");
      if !ValidKey(k) then Bad(MissingNoteKey) else Good(k.value.s, item.members)
  }

  /** A member of the map form: stored under the object's own valid
      `note_key`, else under the map key. */
  function MapEntry(name: string, value: Json): (e: Entry)
    ensures e.Good? <==> !Text.IsBlank(name) && value.JObj?
    ensures e.Good? && ValidKey(Get(value, "note_key")) ==> Get(value, "note_key") == Some(JStr(e.key))
    ensures e.Good? && !ValidKey(Get(value, "note_key")) ==> e.key == name
    ensures e.Good? ==> e.members == value.members
  {
    if Text.IsBlank(name) then Bad(BlankMapKey)
    else if !value.JObj? then Bad(MapValueNotObject)
    else
      var k := Get(value, "note_key");
      Good(if ValidKey(k) then k.value.s else name, value.members)
  }

  /** Storing the entries in order: the first refused entry, or the first
      key seen twice, ends the run with its error. */
  function Collect(entries: seq<Entry>): Result<Normalized>
    decreases |entries|
  {
    if |entries| == 0 then Ok(map[])
    else
      var prev := Collect(entries[..|entries| - 1]);
      var e := entries[|entries| - 1];
      if prev.Err? then prev
      else if e.Bad? then Err(e.message)
      else if e.key in prev.value then Err(DuplicateKey(e.key))
      else Ok(prev.value[e.key := e.members])
  }

  /** Every entry accepted and no key repeated. */
  predicate AllGoodDistinct(entries: seq<Entry>) {
    (forall i :: 0 <= i < |entries| ==> entries[i].Good?)
    && forall i, j :: 0 <= i < j < |entries| && entries[i].Good? && entries[j].Good? ==> entries[i].key != entries[j].key
  }

  /** The response is accepted exactly when every entry is and no key
      repeats; then it holds exactly the entries, each under its key. */
  lemma {:induction false} CollectIff(entries: seq<Entry>)
    ensures Collect(entries).Ok? <==> AllGoodDistinct(entries)
    ensures Collect(entries).Ok? ==>
      (forall i :: 0 <= i < |entries| && entries[i].Good? ==>
         entries[i].key in Collect(entries).value && Collect(entries).value[entries[i].key] == entries[i].members)
      && forall k :: k in Collect(entries).value ==> exists i :: 0 <= i < |entries| && entries[i].key == k
    decreases |entries|
  {
    if |entries| > 0 {
      var n := |entries| - 1;
      var init := entries[..n];
      var e := entries[n];
      CollectIff(init);
      assert forall i :: 0 <= i < n ==> init[i] == entries[i];
      var prev := Collect(init);
      if prev.Ok? && e.Good? && e.key in prev.value {
        var i :| 0 <= i < n && init[i].key == e.key;
        assert entries[i].key == entries[n].key;
      }
      if AllGoodDistinct(entries) {
        assert AllGoodDistinct(init);
      }
    }
  }

  /** Once a prefix is refused, the whole response is refused with the
      same error. */
  lemma {:induction false} CollectErrSticks(entries: seq<Entry>, i: nat)
    requires i <= |entries| && Collect(entries[..i]).Err?
    ensures Collect(entries) == Collect(entries[..i])
    decreases |entries| - i
  {
    if i < |entries| {
      assert entries[..i + 1][..i] == entries[..i];
      CollectErrSticks(entries, i + 1);
    } else {
      assert entries[..i] == entries;
    }
  }

  function ListEntries(items: seq<Json>): (r: seq<Entry>)
    ensures |r| == |items| && forall i :: 0 <= i < |items| ==> r[i] == ListEntry(items[i])
  {
    seq(|items|, i requires 0 <= i < |items| => ListEntry(items[i]))
  }

  function MapEntries(members: seq<(string, Json)>): (r: seq<Entry>)
    ensures |r| == |members| && forall i :: 0 <= i < |members| ==> r[i] == MapEntry(members[i].0, members[i].1)
  {
    seq(|members|, i requires 0 <= i < |members| => MapEntry(members[i].0, members[i].1))
  }

  /** The payload `normalize_batch_response` reads: the `notes` member if
      present, else the whole object. */
  function NotesPayload(parsed: seq<(string, Json)>): (p: Json)
    ensures Lookup(parsed, "notes").Some? ==> p == Lookup(parsed, "notes").value
    ensures Lookup(parsed, "notes").None? ==> p == JObj(parsed)
  {
    Get(JObj(parsed), "notes").GetOr(JObj(parsed))
  }

  /** A single note object: it has both `note_key` and `fields`. */
  predicate SingleNote(p: Json) {
    p.JObj? && Has(p, "note_key") && Has(p, "fields")
  }

  /** The three accepted shapes of a decoded response. */
  function NormalizeParsed(parsed: seq<(string, Json)>): (r: Result<Normalized>)
    ensures NotesPayload(parsed).JArr? ==> r == Collect(ListEntries(NotesPayload(parsed).items))
    ensures SingleNote(NotesPayload(parsed)) ==>
      var k := Get(NotesPayload(parsed), "note_key");
      (ValidKey(k) ==> r == Ok(map[k.value.s := NotesPayload(parsed).members]))
      && (!ValidKey(k) ==> r == Err(MissingNoteKey))
    ensures NotesPayload(parsed).JObj? && !SingleNote(NotesPayload(parsed)) ==>
      r == Collect(MapEntries(NotesPayload(parsed).members))
    ensures !NotesPayload(parsed).JArr? && !NotesPayload(parsed).JObj? ==> r == Err(BadShape)
  {
    var p := NotesPayload(parsed);
    match p
    case JArr(items) => Collect(ListEntries(items))
    case JObj(members) =>
      if SingleNote(p) then
        var k := Get(p, "note_key");
        if ValidKey(k) then Ok(map[k.value.s := members]) else Err(MissingNoteKey)
      else Collect(MapEntries(members))
    case _ => Err(BadShape)
  }

  /** `normalize_batch_response`, as a function of the text and the decoder. */
  function NormalizeSpec(content: string, loads: string -> Option<Json>): Result<Normalized> {
    match ParseJsonObject(content, loads)
    case Err(msg) => Err(msg)
    case Ok(parsed) => NormalizeParsed(parsed)
  }

  /** The loop of `normalize_batch_response` over list items or map members,
      already turned into entries. */
  method CollectEntries(entries: seq<Entry>) returns (r: Result<Normalized>)
    ensures r == Collect(entries)
  {
    var normalized: Normalized := map[];
    var i := 0;
    while i < |entries|
      invariant 0 <= i <= |entries|
      invariant Collect(entries[..i]) == Ok(normalized)
    {
      assert entries[..i + 1][..i] == entries[..i];
      var e := entries[i];
      if e.Bad? {
        CollectErrSticks(entries, i + 1);
        return Err(e.message);
      }
      if e.key in normalized {
        CollectErrSticks(entries, i + 1);
        return Err(DuplicateKey(e.key));
      }
      normalized := normalized[e.key := e.members];
      i := i + 1;
    }
    assert entries[..i] == entries;
    r := Ok(normalized);
  }

  /** `normalize_batch_response`. */
  method NormalizeBatchResponse(content: string, loads: string -> Option<Json>) returns (r: Result<Normalized>)
    ensures r == NormalizeSpec(content, loads)
  {
    var parsed := ParseJsonObject(content, loads);
    if parsed.Err? {
      return Err(parsed.error);
    }
    var p := NotesPayload(parsed.value);
    if p.JArr? {
      r := CollectEntries(ListEntries(p.items));
      return;
    }
    if !p.JObj? {
      return Err(BadShape);
    }
    if SingleNote(p) {
      var k := Get(p, "note_key");
      if !ValidKey(k) {
        return Err(MissingNoteKey);
      }
      return Ok(map[k.value.s := p.members]);
    }
    r := CollectEntries(MapEntries(p.members));
  }

  /** A list response is accepted exactly when every item is an object with
      a valid note key and no two items carry the same one; each note is then
      stored under its key. */
  lemma ListFormIff(items: seq<Json>)
    ensures Collect(ListEntries(items)).Ok? <==>
      (forall i :: 0 <= i < |items| ==> items[i].JObj? && ValidKey(Get(items[i], "note_key")))
      && forall i, j :: 0 <= i < j < |items| ==> Get(items[i], "note_key") != Get(items[j], "note_key")
    ensures Collect(ListEntries(items)).Ok? ==>
      forall i :: 0 <= i < |items| ==>
        Get(items[i], "note_key") == Some(JStr(ListEntry(items[i]).key))
        && ListEntry(items[i]).key in Collect(ListEntries(items)).value
        && Collect(ListEntries(items)).value[ListEntry(items[i]).key] == items[i].members
  {
    var es := ListEntries(items);
    CollectIff(es);
    if AllGoodDistinct(es) {
      forall i, j | 0 <= i < j < |items| ensures Get(items[i], "note_key") != Get(items[j], "note_key") {
        assert es[i].key != es[j].key;
      }
    }
    if (forall i :: 0 <= i < |items| ==> items[i].JObj? && ValidKey(Get(items[i], "note_key")))
       && forall i, j :: 0 <= i < j < |items| ==> Get(items[i], "note_key") != Get(items[j], "note_key") {
      forall i, j | 0 <= i < j < |es| ensures es[i].Good? && es[j].Good? && es[i].key != es[j].key {
        assert es[i] == ListEntry(items[i]) && es[j] == ListEntry(items[j]);
        assert items[i].JObj? && ValidKey(Get(items[i], "note_key"));
        assert items[j].JObj? && ValidKey(Get(items[j], "note_key"));
        assert Get(items[i], "note_key") != Get(items[j], "note_key");
      }
      assert AllGoodDistinct(es);
    }
  }

  /** A map response is accepted exactly when every name is non-blank, every
      value is an object, and the keys they are stored under (the object's
      own valid note key, else the name) never repeat. */
  lemma MapFormIff(members: seq<(string, Json)>)
    ensures Collect(MapEntries(members)).Ok? <==>
      (forall i :: 0 <= i < |members| ==> !Text.IsBlank(members[i].0) && members[i].1.JObj?)
      && forall i, j :: 0 <= i < j < |members| ==>
           MapEntry(members[i].0, members[i].1).key != MapEntry(members[j].0, members[j].1).key
    ensures Collect(MapEntries(members)).Ok? ==>
      forall i :: 0 <= i < |members| ==>
        MapEntry(members[i].0, members[i].1).key in Collect(MapEntries(members)).value
        && Collect(MapEntries(members)).value[MapEntry(members[i].0, members[i].1).key] == members[i].1.members
  {
    var es := MapEntries(members);
    CollectIff(es);
    if (forall i :: 0 <= i < |members| ==> !Text.IsBlank(members[i].0) && members[i].1.JObj?)
       && forall i, j :: 0 <= i < j < |members| ==>
            MapEntry(members[i].0, members[i].1).key != MapEntry(members[j].0, members[j].1).key {
      forall i, j | 0 <= i < j < |es| ensures es[i].Good? && es[j].Good? && es[i].key != es[j].key {
        assert es[i] == MapEntry(members[i].0, members[i].1) && es[j] == MapEntry(members[j].0, members[j].1);
      }
      assert AllGoodDistinct(es);
    }
  }
}
