/**
  `tool_result_to_str` (client.py:50-90): a tool result of loose shape becomes
  display text. A string passes through; an object is read through its mapping
  view (`model_dump()`, `dict()` or `__dict__`); text parts of a Model Context
  Protocol `content` list are joined; failing that the mapping is serialised as
  JSON and cut to 3000 characters; failing that the object's own `str` is used.
*/
module ResultNormalizer {
  import opened Wrappers
  import opened PyText
  import opened PyValues

  /** The slice `[:3000]` applied to the JSON fallback (client.py:85). */
  const MaxChars: nat := 3000

  /**
    What a tool call hands back: a plain string, or an object with an optional
    mapping view (absent when it has none of `model_dump`, `dict`, `__dict__`)
    and the text `str(res)` gives for it.
  */
  datatype ToolResult =
    | Text(s: string)
    | Object(view: Option<map<string, Json>>, display: string)

  /** `data.get("content") or data.get("outputs") or data.get("data")` (client.py:66). */
  function ContentField(data: map<string, Json>): Json {
    Or(Or(Get(data, "content"), Get(data, "outputs")), Get(data, "data"))
  }

  /**
    What one part of the content list appends to `texts` (client.py:69-78): a
    dictionary of type "text" appends its `text` entry as it is ("" when
    missing); another dictionary with a `text` key appends `str` of it; any
    other part appends `str` of its `text` or else `content` attribute, when
    that is truthy.
  */
  function Fragment(part: Json, repr: Json -> string): Option<Json> {
    match part
    case JDict(d) =>
      if Get(d, "type") == JStr("text") then Some(if "text" in d then d["text"] else JStr(""))
      else if "text" in d then Some(JStr(Str(d["text"], repr)))
      else None
    case _ =>
      var t := Or(GetAttr(part, "text"), GetAttr(part, "content"));
      if Truthy(t) then Some(JStr(Str(t, repr))) else None
  }

  function OptionList(o: Option<Json>): seq<Json> {
    if o.Some? then [o.value] else []
  }

  /** The list `texts` after the loop has seen `parts`, built from the last part back. */
  function Fragments(parts: seq<Json>, repr: Json -> string): seq<Json> {
    if parts == [] then []
    else Fragments(parts[..|parts| - 1], repr) + OptionList(Fragment(parts[|parts| - 1], repr))
  }

  /**
    The strings `"\n".join` receives from `t for t in texts if t`: falsy
    fragments are dropped; `None` when a truthy fragment is not a string, where
    `join` raises TypeError.
  */
  function KeptStrings(texts: seq<Json>): Option<seq<string>> {
    if texts == [] then Some([])
    else
      match KeptStrings(texts[..|texts| - 1])
      case None => None
      case Some(kept) =>
        var t := texts[|texts| - 1];
        if !Truthy(t) then Some(kept)
        else if t.JStr? then Some(kept + [t.s])
        else None
  }

  /** `"\n".join(t for t in texts if t).strip()` (client.py:79). */
  function JoinTexts(texts: seq<Json>): Result<string> {
    match KeptStrings(texts)
    case None => Raised(TypeError)
    case Some(kept) => Ok(Strip(Join(kept, "\n")))
  }

  /** The text extracted from the mapping: "" unless the content field is a list (client.py:66-81). */
  function Extracted(data: map<string, Json>, repr: Json -> string): Result<string> {
    var content := ContentField(data);
    if content.JList? then JoinTexts(Fragments(content.items, repr)) else Ok("")
  }

  /**
    `tool_result_to_str(res)`. `dumps` stands for `json.dumps(data,
    ensure_ascii=False)`, `None` where it raises; `repr` for `str` of lists,
    dictionaries and objects.
  */
  function Normalize(res: ToolResult, dumps: map<string, Json> -> Option<string>, repr: Json -> string): Result<string> {
    match res
    case Text(s) => Ok(s)
    case Object(view, display) =>
      if view.None? || view.value == map[] then Ok(display)
      else
        var out := Extracted(view.value, repr);
        if out.Raised? || out.value != "" then out
        else
          match dumps(view.value)
          case Some(j) => Ok(Take(j, MaxChars))
          case None => Ok(display)
  }

  /** The loop at client.py:68-78, appending each part's fragment to `texts`. */
  method ExtractTexts(parts: seq<Json>, repr: Json -> string) returns (texts: seq<Json>)
    ensures texts == Fragments(parts, repr)
  {
    texts := [];
    var i := 0;
    while i < |parts|
      invariant i <= |parts|
      invariant texts == Fragments(parts[..i], repr)
    {
      var part := parts[i];
      assert parts[..i + 1][..i] == parts[..i];
      match part {
        case JDict(d) =>
          if Get(d, "type") == JStr("text") {
            texts := texts + [if "text" in d then d["text"] else JStr("")];
          } else if "text" in d {
            texts := texts + [JStr(Str(d["text"], repr))];
          }
        case _ =>
          var t := Or(GetAttr(part, "text"), GetAttr(part, "content"));
          if Truthy(t) {
            texts := texts + [JStr(Str(t, repr))];
          }
      }
      i := i + 1;
    }
    assert parts[..i] == parts;
  }

  /** `tool_result_to_str` (client.py:50-90). */
  method ToolResultToStr(res: ToolResult, dumps: map<string, Json> -> Option<string>, repr: Json -> string)
    returns (r: Result<string>)
    ensures r == Normalize(res, dumps, repr)
  {
    if res.Text? {
      return Ok(res.s);
    }
    var data := res.view;
    if data.Some? && data.value != map[] {
      var content := ContentField(data.value);
      if content.JList? {
        var texts := ExtractTexts(content.items, repr);
        var out := JoinTexts(texts);
        if out.Raised? || out.value != "" {
          return out;
        }
      }
      var j := dumps(data.value);
      if j.Some? {
        return Ok(Take(j.value, MaxChars));
      }
    }
    return Ok(res.display);
  }

  // ---------------------------------------------------------------------------
  // Properties
  // ---------------------------------------------------------------------------

  /** A string result is returned unchanged; an object with no mapping view, or an empty one, gives its own `str`. */
  lemma PassThroughAndLastResort(res: ToolResult, dumps: map<string, Json> -> Option<string>, repr: Json -> string)
    ensures res.Text? ==> Normalize(res, dumps, repr) == Ok(res.s)
    ensures res.Object? && (res.view.None? || res.view.value == map[]) ==> Normalize(res, dumps, repr) == Ok(res.display)
  {
  }

  /** The content list is the first truthy field among `content`, `outputs` and `data`, in that order. */
  lemma ContentPrecedence(data: map<string, Json>)
    ensures Truthy(Get(data, "content")) ==> ContentField(data) == Get(data, "content")
    ensures !Truthy(Get(data, "content")) && Truthy(Get(data, "outputs")) ==> ContentField(data) == Get(data, "outputs")
    ensures !Truthy(Get(data, "content")) && !Truthy(Get(data, "outputs")) ==> ContentField(data) == Get(data, "data")
  {
  }

  /** The parts' fragments are collected in order: the list of a concatenation is the concatenation of the lists. */
  lemma {:induction false} FragmentsAppend(a: seq<Json>, b: seq<Json>, repr: Json -> string)
    ensures Fragments(a + b, repr) == Fragments(a, repr) + Fragments(b, repr)
    decreases |b|
  {
    if b == [] {
      assert a + b == a;
    } else {
      var b' := b[..|b| - 1];
      var last := OptionList(Fragment(b[|b| - 1], repr));
      assert (a + b)[..|a + b| - 1] == a + b' && (a + b)[|a + b| - 1] == b[|b| - 1];
      assert Fragments(a + b, repr) == Fragments(a + b', repr) + last;
      FragmentsAppend(a, b', repr);
      assert Fragments(b, repr) == Fragments(b', repr) + last;
    }
  }

  /** Each part contributes at most one fragment, its own. */
  lemma {:induction false} FragmentsOfOne(p: Json, repr: Json -> string)
    ensures Fragments([p], repr) == OptionList(Fragment(p, repr))
  {
    assert [p][..0] == [];
  }

  /** `join` raises exactly when some fragment is truthy and not a string. */
  lemma {:induction false} KeptStringsNone(texts: seq<Json>)
    ensures KeptStrings(texts).None? <==> exists j :: 0 <= j < |texts| && Truthy(texts[j]) && !texts[j].JStr?
    decreases |texts|
  {
    if texts != [] {
      var init := texts[..|texts| - 1];
      KeptStringsNone(init);
      if exists j :: 0 <= j < |init| && Truthy(init[j]) && !init[j].JStr? {
        var j :| 0 <= j < |init| && Truthy(init[j]) && !init[j].JStr?;
        assert texts[j] == init[j];
      }
      if exists j :: 0 <= j < |texts| && Truthy(texts[j]) && !texts[j].JStr? {
        var j :| 0 <= j < |texts| && Truthy(texts[j]) && !texts[j].JStr?;
        if j < |init| {
          assert init[j] == texts[j];
        }
      }
    }
  }

  /**
    The filter `t for t in texts if t`, read front to back: the truthy
    fragments, each of which must be a string by the time `join` sees it.
  */
  function TruthyStrings(texts: seq<Json>): seq<string> {
    if texts == [] then []
    else (if Truthy(texts[0]) && texts[0].JStr? then [texts[0].s] else []) + TruthyStrings(texts[1..])
  }

  lemma {:induction false} TruthyStringsSnoc(texts: seq<Json>, t: Json)
    ensures TruthyStrings(texts + [t]) == TruthyStrings(texts) + (if Truthy(t) && t.JStr? then [t.s] else [])
    decreases |texts|
  {
    if texts != [] {
      assert (texts + [t])[1..] == texts[1..] + [t];
      TruthyStringsSnoc(texts[1..], t);
    } else {
      assert [t][1..] == [];
    }
  }

  /**
    What survives the filter is exactly the non-empty strings among the
    fragments, in order, and so no more of them than there are fragments.
  */
  lemma {:induction false} KeptStringsFiltered(texts: seq<Json>)
    requires KeptStrings(texts).Some?
    ensures KeptStrings(texts).value == TruthyStrings(texts)
    ensures forall k :: 0 <= k < |KeptStrings(texts).value| ==> KeptStrings(texts).value[k] != ""
    ensures |KeptStrings(texts).value| <= |texts|
    decreases |texts|
  {
    if texts != [] {
      var init := texts[..|texts| - 1];
      KeptStringsFiltered(init);
      assert texts == init + [texts[|texts| - 1]];
      TruthyStringsSnoc(init, texts[|texts| - 1]);
    }
  }

  /** The joined text never starts or ends with whitespace, as `strip` leaves it. */
  lemma JoinTextsStripped(texts: seq<Json>)
    ensures JoinTexts(texts).Ok? ==> var out := JoinTexts(texts).value; out == [] || (!IsSpace(out[0]) && !IsSpace(out[|out| - 1]))
  {
    if KeptStrings(texts).Some? {
      TrimEnds(Join(KeptStrings(texts).value, "\n"), IsSpace);
    }
  }

  /**
    The only error is the TypeError `join` raises (client.py:79), and it is
    raised exactly when the mapping is non-empty, its content field is a list,
    and some part yields a truthy fragment that is not a string.
  */
  lemma RaisesExactly(res: ToolResult, dumps: map<string, Json> -> Option<string>, repr: Json -> string)
    ensures Normalize(res, dumps, repr).Raised? ==> Normalize(res, dumps, repr).error == TypeError
    ensures Normalize(res, dumps, repr).Raised? <==>
      && res.Object? && res.view.Some? && res.view.value != map[]
      && ContentField(res.view.value).JList?
      && (var texts := Fragments(ContentField(res.view.value).items, repr);
          exists j :: 0 <= j < |texts| && Truthy(texts[j]) && !texts[j].JStr?)
  {
    if res.Object? && res.view.Some? && res.view.value != map[] {
      var data := res.view.value;
      assert Normalize(res, dumps, repr).Raised? <==> Extracted(data, repr).Raised?;
      ExtractedRaises(data, repr);
    }
  }

  /** Extraction raises only the TypeError of `join`, exactly when a list content field has a truthy non-string fragment. */
  lemma ExtractedRaises(data: map<string, Json>, repr: Json -> string)
    ensures Extracted(data, repr).Raised? ==> Extracted(data, repr).error == TypeError
    ensures Extracted(data, repr).Raised? <==>
      && ContentField(data).JList?
      && (var texts := Fragments(ContentField(data).items, repr);
          exists j :: 0 <= j < |texts| && Truthy(texts[j]) && !texts[j].JStr?)
  {
    if ContentField(data).JList? {
      var texts := Fragments(ContentField(data).items, repr);
      assert Extracted(data, repr) == JoinTexts(texts);
      assert Extracted(data, repr).Raised? <==> KeptStrings(texts).None?;
      KeptStringsNone(texts);
    }
  }

  /** Non-empty extracted text wins over the JSON fallback, and it is returned whole, with no length cap. */
  lemma ExtractionWins(data: map<string, Json>, display: string, dumps: map<string, Json> -> Option<string>, repr: Json -> string)
    requires data != map[] && Extracted(data, repr).Ok? && Extracted(data, repr).value != ""
    ensures Normalize(Object(Some(data), display), dumps, repr) == Extracted(data, repr)
  {
  }

  /**
    When nothing is extracted, the result is the JSON text cut to at most 3000
    characters (a prefix of it, and all of it when it is short enough), or the
    object's own `str` when serialisation fails.
  */
  lemma JsonFallback(data: map<string, Json>, display: string, dumps: map<string, Json> -> Option<string>, repr: Json -> string)
    requires data != map[] && Extracted(data, repr) == Ok("")
    ensures dumps(data).Some? ==>
      var r := Normalize(Object(Some(data), display), dumps, repr).value;
      |r| <= MaxChars && r <= dumps(data).value && (|dumps(data).value| <= MaxChars ==> r == dumps(data).value)
    ensures dumps(data).None? ==> Normalize(Object(Some(data), display), dumps, repr) == Ok(display)
  {
  }

  /**
    Only the JSON fallback is capped: every successful result of an object is
    its own `str`, a non-empty stripped extraction, or a prefix of the JSON text
    of at most 3000 characters.
  */
  lemma ObjectOutcomes(view: Option<map<string, Json>>, display: string, dumps: map<string, Json> -> Option<string>, repr: Json -> string)
    ensures var r := Normalize(Object(view, display), dumps, repr);
      r.Ok? ==>
        || r.value == display
        || (view.Some? && r == Extracted(view.value, repr) && r.value != "")
        || (view.Some? && dumps(view.value).Some? && |r.value| <= MaxChars && r.value <= dumps(view.value).value)
  {
  }

  /** A single MCP text block returns its text, however long it is, when it carries no surrounding whitespace. */
  lemma SingleTextBlock(t: string, display: string, dumps: map<string, Json> -> Option<string>, repr: Json -> string)
    requires t != "" && !IsSpace(t[0]) && !IsSpace(t[|t| - 1])
    ensures var block := JDict(map["type" := JStr("text"), "text" := JStr(t)]);
      Normalize(Object(Some(map["content" := JList([block])]), display), dumps, repr) == Ok(t)
  {
    var block := JDict(map["type" := JStr("text"), "text" := JStr(t)]);
    var data := map["content" := JList([block])];
    assert ContentField(data) == JList([block]);
    assert Fragments([block], repr) == [JStr(t)] by {
      FragmentsOfOne(block, repr);
    }
    JoinOneText(t);
  }

  lemma JoinOneText(t: string)
    requires t != "" && !IsSpace(t[0]) && !IsSpace(t[|t| - 1])
    ensures JoinTexts([JStr(t)]) == Ok(t)
  {
    KeptOne(JStr(t));
    TrimKeeps(t, IsSpace);
  }

  lemma KeptOne(x: Json)
    requires x.JStr? && x.s != ""
    ensures KeptStrings([x]) == Some([x.s])
  {
    assert [x][..0] == [];
    assert KeptStrings([]) == Some([]);
    assert Truthy(x);
    assert [] + [x.s] == [x.s];
  }

  /** Two MCP text blocks give their texts joined by a newline ("hello" and "world" give "hello\nworld"). */
  lemma TwoTextBlocks(t1: string, t2: string, display: string, dumps: map<string, Json> -> Option<string>, repr: Json -> string)
    requires t1 != "" && !IsSpace(t1[0])
    requires t2 != "" && !IsSpace(t2[|t2| - 1])
    ensures var b1 := JDict(map["type" := JStr("text"), "text" := JStr(t1)]);
      var b2 := JDict(map["type" := JStr("text"), "text" := JStr(t2)]);
      Normalize(Object(Some(map["content" := JList([b1, b2])]), display), dumps, repr) == Ok(t1 + "\n" + t2)
  {
    var b1 := JDict(map["type" := JStr("text"), "text" := JStr(t1)]);
    var b2 := JDict(map["type" := JStr("text"), "text" := JStr(t2)]);
    var data := map["content" := JList([b1, b2])];
    assert ContentField(data) == JList([b1, b2]);
    assert Fragments([b1, b2], repr) == [JStr(t1), JStr(t2)] by {
      TextBlockFragment(t1, repr);
      TextBlockFragment(t2, repr);
      TwoFragments(b1, b2, repr);
    }
    assert Extracted(data, repr) == Ok(t1 + "\n" + t2) by {
      KeptTwo(t1, t2);
      JoinTwoKept(t1, t2);
    }
  }

  lemma TextBlockFragment(t: string, repr: Json -> string)
    ensures Fragment(JDict(map["type" := JStr("text"), "text" := JStr(t)]), repr) == Some(JStr(t))
  {
  }

  lemma TwoFragments(b1: Json, b2: Json, repr: Json -> string)
    requires Fragment(b1, repr).Some? && Fragment(b2, repr).Some?
    ensures Fragments([b1, b2], repr) == [Fragment(b1, repr).value, Fragment(b2, repr).value]
  {
    assert [b1, b2] == [b1] + [b2];
    FragmentsAppend([b1], [b2], repr);
    FragmentsOfOne(b1, repr);
    FragmentsOfOne(b2, repr);
  }

  lemma KeptTwo(t1: string, t2: string)
    requires t1 != "" && t2 != ""
    ensures KeptStrings([JStr(t1), JStr(t2)]) == Some([t1, t2])
  {
    var texts := [JStr(t1), JStr(t2)];
    assert texts[..1] == [JStr(t1)];
    KeptOne(JStr(t1));
    assert Truthy(texts[1]) && texts[1].JStr?;
    assert [t1] + [t2] == [t1, t2];
  }

  lemma JoinTwoKept(t1: string, t2: string)
    requires t1 != "" && !IsSpace(t1[0])
    requires t2 != "" && !IsSpace(t2[|t2| - 1])
    ensures Strip(Join([t1, t2], "\n")) == t1 + "\n" + t2
  {
    var out := t1 + "\n" + t2;
    assert [t1, t2][1..] == [t2];
    assert Join([t1, t2], "\n") == out;
    assert out[0] == t1[0] && out[|out| - 1] == t2[|t2| - 1];
    TrimKeeps(out, IsSpace);
  }
}
