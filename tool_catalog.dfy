/**
  `list_tools_text` (client.py:129-153) and the fallback around its call
  (client.py:182-185): the "Tools: ..." line shown by `help`, built from
  whatever listing operation the session offers.
*/
module ToolCatalog {
  import opened Wrappers
  import opened PyText
  import opened PyValues
  import ResultNormalizer

  /** The listing operations probed in turn (client.py:134). */
  datatype Lister = ListTools | GetTools | ToolsAttr

  const Listers: seq<Lister> := [ListTools, GetTools, ToolsAttr]

  const Prefix: string := "Tools: "

  /** The names shown when nothing better is known. */
  const DefaultNames: string := "get_alerts, ping"

  /** The line used when the listing is missing, empty or fails (client.py:142, 153, 185). */
  const FallbackLine: string := Prefix + DefaultNames

  /**
    A session as `list_tools_text` sees it: for each listing operation it
    has (a truthy attribute), the outcome of calling it and awaiting the
    result, or the exception that raises.
  */
  datatype ToolSession = ToolSession(listers: map<Lister, Result<Json>>)

  /** The first of `todo` that the session has. */
  function FirstPresent(listers: map<Lister, Result<Json>>, todo: seq<Lister>): (r: Option<Lister>)
    ensures r.Some? ==> r.value in listers && r.value in todo
    decreases |todo|
  {
    if todo == [] then None
    else if todo[0] in listers then Some(todo[0])
    else FirstPresent(listers, todo[1..])
  }

  /** The value `tools` holds after the probe loop (client.py:133-139); `None` stays `None`. */
  function Listing(s: ToolSession): Result<Json> {
    match FirstPresent(s.listers, Listers)
    case None => Ok(JNull)
    case Some(l) => s.listers[l]
  }

  /** The one-character strings `for t in s` yields. */
  function Chars(s: string): (r: seq<Json>)
    ensures |r| == |s| && forall i :: 0 <= i < |s| ==> r[i] == JStr([s[i]])
  {
    if s == [] then [] else Chars(s[..|s| - 1]) + [JStr([s[|s| - 1]])]
  }

  /**
    What `for t in tools` iterates over; `None` where Python raises TypeError.
    `iter` stands for the iteration protocol of dictionaries and objects.
  */
  function Elements(j: Json, iter: Json -> Option<seq<Json>>): Option<seq<Json>> {
    match j
    case JList(items) => Some(items)
    case JStr(s) => Some(Chars(s))
    case JDict(_) => iter(j)
    case JObject(_) => iter(j)
    case _ => None
  }

  /** `t.get(k)` for a dictionary, `getattr(t, k, None)` for anything else. */
  function Field(t: Json, k: string): Json {
    if t.JDict? then Get(t.entries, k) else GetAttr(t, k)
  }

  /** The name shown for one tool (client.py:146-150). */
  function NameOf(t: Json, repr: Json -> string): Json {
    Or(Or(Field(t, "name"), Field(t, "tool")), JStr(Str(t, repr)))
  }

  /** `names` after the loop at client.py:145-150 over `items`. */
  function Names(items: seq<Json>, repr: Json -> string): (r: seq<Json>)
    ensures |r| == |items| && forall i :: 0 <= i < |items| ==> r[i] == NameOf(items[i], repr)
  {
    if items == [] then [] else Names(items[..|items| - 1], repr) + [NameOf(items[|items| - 1], repr)]
  }

  /** The line built from a listing value (client.py:141-153). */
  function LineFrom(tools: Json, iter: Json -> Option<seq<Json>>, repr: Json -> string): Result<string> {
    if !Truthy(tools) then Ok(FallbackLine)
    else
      match Elements(tools, iter)
      case None => Raised(TypeError)
      case Some(items) =>
        match ResultNormalizer.KeptStrings(Names(items, repr))
        case None => Raised(TypeError)
        case Some(kept) => Ok(Prefix + if kept != [] then Join(kept, ", ") else DefaultNames)
  }

  /** `list_tools_text(session)`: the line, or the exception it raises. */
  function ToolsText(s: ToolSession, iter: Json -> Option<seq<Json>>, repr: Json -> string): Result<string> {
    match Listing(s)
    case Raised(e) => Raised(e)
    case Ok(tools) => LineFrom(tools, iter, repr)
  }

  /** `tool_list_line` in the chat runner: any exception gives the fallback line (client.py:182-185). */
  function ToolListLine(s: ToolSession, iter: Json -> Option<seq<Json>>, repr: Json -> string): (line: string)
    ensures Prefix <= line
  {
    match ToolsText(s, iter, repr)
    case Ok(t) => t
    case Raised(_) => FallbackLine
  }

  /** `list_tools_text(session)` (client.py:129-153): the probe loop, then the names loop. */
  method ListToolsText(s: ToolSession, iter: Json -> Option<seq<Json>>, repr: Json -> string) returns (r: Result<string>)
    ensures r == ToolsText(s, iter, repr)
  {
    var tools := JNull;
    var i := 0;
    while i < |Listers|
      invariant 0 <= i <= |Listers|
      invariant FirstPresent(s.listers, Listers) == FirstPresent(s.listers, Listers[i..])
      invariant tools == JNull
    {
      assert Listers[i..][1..] == Listers[i + 1..];
      if Listers[i] in s.listers {
        match s.listers[Listers[i]] {
          case Raised(e) =>
            return Raised(e);
          case Ok(v) =>
            tools := v;
        }
        break;
      }
      i := i + 1;
    }
    assert Listing(s) == Ok(tools);
    if !Truthy(tools) {
      return Ok(FallbackLine);
    }
    var items: seq<Json>;
    match Elements(tools, iter) {
      case None =>
        return Raised(TypeError);
      case Some(xs) =>
        items := xs;
    }
    var names: seq<Json> := [];
    for k := 0 to |items|
      invariant names == Names(items[..k], repr)
    {
      assert items[..k + 1][..k] == items[..k];
      names := names + [NameOf(items[k], repr)];
    }
    assert items[..|items|] == items;
    match ResultNormalizer.KeptStrings(names) {
      case None =>
        r := Raised(TypeError);
      case Some(kept) =>
        r := Ok(Prefix + if kept != [] then Join(kept, ", ") else DefaultNames);
    }
  }

  // ---------------------------------------------------------------------------
  // Properties
  // ---------------------------------------------------------------------------

  /**
    The first listing operation the session has is the one called; what the
    later ones would do makes no difference.
  */
  lemma FirstListerUsed(s: ToolSession, j: nat, iter: Json -> Option<seq<Json>>, repr: Json -> string)
    requires j < |Listers| && Listers[j] in s.listers
    requires forall i :: 0 <= i < j ==> Listers[i] !in s.listers
    ensures ToolsText(s, iter, repr) ==
      match s.listers[Listers[j]]
      case Raised(e) => Raised(e)
      case Ok(tools) => LineFrom(tools, iter, repr)
  {
    if j > 0 {
      assert Listers[0] !in s.listers;
    }
    if j > 1 {
      assert Listers[1] !in s.listers;
    }
  }

  /** A session with no listing operation, or a falsy listing, gives exactly the fallback line. */
  lemma MissingListingFallback(s: ToolSession, iter: Json -> Option<seq<Json>>, repr: Json -> string)
    requires (forall l :: l !in s.listers) || (Listing(s).Ok? && !Truthy(Listing(s).value))
    ensures ToolsText(s, iter, repr) == Ok(FallbackLine)
  {
    if forall l :: l !in s.listers {
      assert FirstPresent(s.listers, Listers) == None by {
        assert Listers[1..][1..][1..] == [];
      }
    }
  }

  /** A listing whose every name is empty also gives exactly the fallback line. */
  lemma NamelessListingFallback(tools: Json, items: seq<Json>, iter: Json -> Option<seq<Json>>, repr: Json -> string)
    requires Truthy(tools) && Elements(tools, iter) == Some(items)
    requires forall i :: 0 <= i < |items| ==> !Truthy(NameOf(items[i], repr))
    ensures LineFrom(tools, iter, repr) == Ok(FallbackLine)
  {
    NoneKept(Names(items, repr));
  }

  lemma {:induction false} NoneKept(xs: seq<Json>)
    requires forall i :: 0 <= i < |xs| ==> !Truthy(xs[i])
    ensures ResultNormalizer.KeptStrings(xs) == Some([])
    decreases |xs|
  {
    if xs != [] {
      NoneKept(xs[..|xs| - 1]);
    }
  }

  /** Each tool's name is its `name`, else its `tool`, else `str(t)`. */
  lemma NamePrecedence(t: Json, repr: Json -> string)
    ensures Truthy(Field(t, "name")) ==> NameOf(t, repr) == Field(t, "name")
    ensures !Truthy(Field(t, "name")) && Truthy(Field(t, "tool")) ==> NameOf(t, repr) == Field(t, "tool")
    ensures !Truthy(Field(t, "name")) && !Truthy(Field(t, "tool")) ==> NameOf(t, repr) == JStr(Str(t, repr))
  {
  }

  /** `xs` without its empty strings, in order. */
  function DropEmpty(xs: seq<string>): (r: seq<string>)
    ensures |r| <= |xs| && forall i :: 0 <= i < |r| ==> r[i] != ""
  {
    if xs == [] then [] else (if xs[0] == "" then [] else [xs[0]]) + DropEmpty(xs[1..])
  }

  lemma {:induction false} DropEmptySnoc(xs: seq<string>, x: string)
    ensures DropEmpty(xs + [x]) == DropEmpty(xs) + (if x == "" then [] else [x])
    decreases |xs|
  {
    if xs == [] {
      assert [] + [x] == [x];
    } else {
      assert (xs + [x])[1..] == xs[1..] + [x];
      DropEmptySnoc(xs[1..], x);
    }
  }

  /** The filter `[n for n in names if n]` on names that are all strings keeps the non-empty ones in order. */
  lemma {:induction false} KeptNames(names: seq<Json>, strs: seq<string>)
    requires |names| == |strs| && forall i :: 0 <= i < |names| ==> names[i] == JStr(strs[i])
    ensures ResultNormalizer.KeptStrings(names) == Some(DropEmpty(strs))
    decreases |names|
  {
    if names != [] {
      var n := |names| - 1;
      KeptNames(names[..n], strs[..n]);
      assert strs == strs[..n] + [strs[n]];
      DropEmptySnoc(strs[..n], strs[n]);
      assert names[n] == JStr(strs[n]);
      assert DropEmpty(strs) == DropEmpty(strs[..n]) + (if strs[n] == "" then [] else [strs[n]]);
      assert ResultNormalizer.KeptStrings(names[..n]) == Some(DropEmpty(strs[..n]));
      if strs[n] == "" {
        assert !Truthy(names[n]);
        assert DropEmpty(strs) == DropEmpty(strs[..n]) + [];
        assert DropEmpty(strs[..n]) + [] == DropEmpty(strs[..n]);
      } else {
        assert Truthy(names[n]);
      }
    }
  }

  /**
    When every tool's name is a string, the line lists the non-empty names in
    the order of the listing, separated by ", ", or the default names when
    there are none.
  */
  lemma NamesInOrder(tools: Json, items: seq<Json>, strs: seq<string>, iter: Json -> Option<seq<Json>>, repr: Json -> string)
    requires Truthy(tools) && Elements(tools, iter) == Some(items)
    requires |strs| == |items| && forall i :: 0 <= i < |items| ==> NameOf(items[i], repr) == JStr(strs[i])
    ensures LineFrom(tools, iter, repr) ==
      Ok(if DropEmpty(strs) == [] then FallbackLine else Prefix + Join(DropEmpty(strs), ", "))
  {
    KeptNames(Names(items, repr), strs);
  }

  /** A raising listing, and a truthy non-string name, are the only ways `list_tools_text` raises. */
  lemma RaisesExactly(s: ToolSession, iter: Json -> Option<seq<Json>>, repr: Json -> string)
    ensures ToolsText(s, iter, repr).Raised? <==>
      Listing(s).Raised? ||
      (Truthy(Listing(s).value) &&
        (Elements(Listing(s).value, iter).None? ||
         exists i :: 0 <= i < |Elements(Listing(s).value, iter).value| &&
           Truthy(NameOf(Elements(Listing(s).value, iter).value[i], repr)) &&
           !NameOf(Elements(Listing(s).value, iter).value[i], repr).JStr?))
  {
    if Listing(s).Ok? && Truthy(Listing(s).value) && Elements(Listing(s).value, iter).Some? {
      var items := Elements(Listing(s).value, iter).value;
      var names := Names(items, repr);
      ResultNormalizer.KeptStringsNone(names);
    }
  }
}
