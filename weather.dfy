/**
  The weather tool server (weather.py): argument coercion, the alert
  formatters, and `get_alerts` from the moment the National Weather Service
  answer is in hand. The answer is a GeoJSON FeatureCollection: a `features`
  list whose members carry their data in `properties` (sections 3.2 and 3.3
  of RFC 7946).
*/
module Weather {
  import opened Wrappers
  import opened PyText
  import opened PyValues

  /** Hard cap on the text `get_alerts` returns (weather.py:12). */
  const MaxChars: nat := 3000

  /** Upper bound on the number of alerts listed (weather.py:13). */
  const MaxItems: nat := 20

  /** Longest area description shown whole (weather.py:44). */
  const MaxArea: nat := 120

  const Ellipsis: char := '…'

  const Unavailable: string := "Unable to fetch alerts or no alerts found."
  const NoActive: string := "No active alerts for this state."
  const NoMatching: string := "No matching alerts."
  const PingReply: string := "\U{1F3D3} Pong! Weather service is online and ready to provide weather alerts."
  const EchoPrefix: string := "Resource echo: "

  function Min(a: int, b: int): int {
    if a <= b then a else b
  }

  /** `d.get(k, default)`. */
  function GetOr(d: map<string, Json>, k: string, default: Json): Json {
    if k in d then d[k] else default
  }

  // ---------------------------------------------------------------------------
  // Argument coercion
  // ---------------------------------------------------------------------------

  /** The texts `_to_bool` reads as true once stripped and lower-cased (weather.py:31). */
  const TrueWords: set<string> := {"1", "true", "yes", "y"}

  /** `_to_bool(v)` (weather.py:27-32). */
  function ToBool(v: Json): bool {
    match v
    case JBool(b) => b
    case JStr(s) => Lower(Strip(s)) in TrueWords
    case _ => Truthy(v)
  }

  /** `int(v)` for the values a tool argument can hold; `None` where it raises. */
  function IntOf(v: Json): Option<int> {
    match v
    case JInt(i) => Some(i)
    case JBool(b) => Some(if b then 1 else 0)
    case JStr(s) => PyInt(s)
    case _ => None
  }

  /** `max(1, min(i, MAX_ITEMS))`. */
  function Clamp(i: int): (r: int)
    ensures 1 <= r <= MaxItems
    ensures 1 <= i <= MaxItems ==> r == i
    ensures i < 1 ==> r == 1
    ensures i > MaxItems ==> r == MaxItems
  {
    if i < 1 then 1 else if i > MaxItems then MaxItems else i
  }

  /** `_to_int(v, default)` (weather.py:34-38). */
  function ToInt(v: Json, default: int): int {
    match IntOf(v)
    case Some(i) => Clamp(i)
    case None => default
  }

  /** A convertible value lands in [1, MAX_ITEMS], unchanged when already there; any other gives the default, unclamped. */
  lemma ToIntRange(v: Json, default: int)
    ensures IntOf(v).Some? ==> 1 <= ToInt(v, default) <= MaxItems
    ensures IntOf(v).Some? && 1 <= IntOf(v).value <= MaxItems ==> ToInt(v, default) == IntOf(v).value
    ensures IntOf(v).None? ==> ToInt(v, default) == default
  {
  }

  /** The decimal text of an integer `str` can write converts back to it: `_to_int(str(i), d)` clamps `i`. */
  lemma ToIntOfDecimal(i: int, default: int)
    requires StrFits(i)
    ensures ToInt(JStr(DecimalString(i)), default) == Clamp(i)
  {
    PyIntOfDecimalString(i);
  }

  /** A numeral longer than the digit limit makes `int()` raise, so `_to_int` gives the default, unclamped. */
  lemma ToIntOfLongNumeral(i: int, default: int)
    requires !StrFits(i)
    ensures ToInt(JStr(DecimalString(i)), default) == default
  {
    PyIntOfLongNumeral(i);
  }

  /** With the default `5` that `get_alerts` passes, the count is always at least one. */
  lemma ToIntPositive(v: Json)
    ensures 1 <= ToInt(v, 5) <= MaxItems
  {
  }

  /** A boolean printed by `str` reads back as itself: `_to_bool(str(b)) == b`. */
  lemma ToBoolOfStr(b: bool, repr: Json -> string)
    ensures ToBool(JStr(Str(JBool(b), repr))) == b
  {
    var s := Str(JBool(b), repr);
    assert Strip(s) == s by {
      TrimKeeps(s, IsSpace);
    }
    if b {
      assert Lower(s) == "true";
    } else {
      assert Lower(s) == "false";
    }
  }

  // ---------------------------------------------------------------------------
  // One alert
  // ---------------------------------------------------------------------------

  /** `feature.get("properties", {})`, which must be a dictionary for the `.get` calls on it. */
  function Properties(feature: Json): Result<map<string, Json>> {
    if !feature.JDict? then Raised(AttributeError)
    else
      var p := GetOr(feature.entries, "properties", JDict(map[]));
      if p.JDict? then Ok(p.entries) else Raised(AttributeError)
  }

  /** An area description of more than 120 characters is cut to 117 and an ellipsis (weather.py:44-45). */
  function Truncate(area: string): string {
    if |area| > MaxArea then area[..117] + [Ellipsis] else area
  }

  lemma TruncateBounds(area: string)
    ensures |Truncate(area)| <= MaxArea
    ensures Truncate(area) == area <==> |area| <= MaxArea
    ensures |area| > MaxArea ==>
      |Truncate(area)| == 118 && Truncate(area)[..117] == area[..117] && Truncate(area)[117] == Ellipsis
  {
    if |area| > MaxArea {
      assert |Truncate(area)| != |area|;
    }
  }

  /**
    The area text: `len(area)` needs a string, list or dictionary, and only a
    string can be cut and joined to the ellipsis; a short list or dictionary
    is printed as Python prints it. A long list fails at `list + str`; a long
    dictionary fails earlier, at `area[:117]`, which since Python 3.12 looks
    the slice up as a key.
  */
  function AreaText(area: Json, repr: Json -> string): Result<string> {
    match area
    case JStr(s) => Ok(Truncate(s))
    case JList(xs) => if |xs| > MaxArea then Raised(TypeError) else Ok(repr(area))
    case JDict(m) => if |m| > MaxArea then Raised(KeyError) else Ok(repr(area))
    case _ => Raised(TypeError)
  }

  /** The end time shown: `ends`, else `expires`, else "N/A" (weather.py:46). */
  function EndsText(p: map<string, Json>, repr: Json -> string): string {
    Str(Or(Or(Get(p, "ends"), Get(p, "expires")), JStr("N/A")), repr)
  }

  lemma EndsPrecedence(p: map<string, Json>, repr: Json -> string)
    ensures Truthy(Get(p, "ends")) ==> EndsText(p, repr) == Str(p["ends"], repr)
    ensures !Truthy(Get(p, "ends")) && Truthy(Get(p, "expires")) ==> EndsText(p, repr) == Str(p["expires"], repr)
    ensures !Truthy(Get(p, "ends")) && !Truthy(Get(p, "expires")) ==> EndsText(p, repr) == "N/A"
  {
  }

  /** `_brief_alert(feature, include_expires)` (weather.py:40-48). */
  function BriefAlert(feature: Json, includeExpires: bool, repr: Json -> string): Result<string> {
    match Properties(feature)
    case Raised(e) => Raised(e)
    case Ok(p) =>
      match AreaText(GetOr(p, "areaDesc", JStr("?")), repr)
      case Raised(e) => Raised(e)
      case Ok(area) =>
        var ev := Str(GetOr(p, "event", JStr("?")), repr);
        Ok("• " + ev + " — " + area + ExpiresTail(p, includeExpires, repr))
  }

  /** A brief line starts with a bullet; asking for the end time only appends it. */
  lemma BriefAlertExpires(feature: Json, repr: Json -> string)
    ensures BriefAlert(feature, true, repr).Ok? <==> BriefAlert(feature, false, repr).Ok?
    ensures BriefAlert(feature, false, repr).Ok? ==>
      var short := BriefAlert(feature, false, repr).value;
      "• " <= short &&
      BriefAlert(feature, true, repr).value == short + " (until " + EndsText(Properties(feature).value, repr) + ")"
  {
  }

  /** The tail `_brief_alert` appends when asked for the end time. */
  function ExpiresTail(p: map<string, Json>, inc: bool, repr: Json -> string): string {
    if inc then " (until " + EndsText(p, repr) + ")" else ""
  }

  /**
    The event and the area each default to "?" when absent, whatever the end
    time does: an absent event shows as "?" before the dash, and an absent
    area shows as "?" after it, the line then never raising.
  */
  lemma BriefAlertDefaults(feature: Json, inc: bool, repr: Json -> string)
    requires Properties(feature).Ok?
    ensures var p := Properties(feature).value;
      "event" !in p && BriefAlert(feature, inc, repr).Ok? ==> "• ? — " <= BriefAlert(feature, inc, repr).value
    ensures var p := Properties(feature).value;
      "areaDesc" !in p ==>
        BriefAlert(feature, inc, repr) == Ok("• " + Str(GetOr(p, "event", JStr("?")), repr) + " — ?" + ExpiresTail(p, inc, repr))
    ensures var p := Properties(feature).value;
      "event" !in p && "areaDesc" !in p ==> BriefAlert(feature, inc, repr) == Ok("• ? — ?" + ExpiresTail(p, inc, repr))
  {
    var p := Properties(feature).value;
    assert Truncate("?") == "?";
    if "event" !in p && BriefAlert(feature, inc, repr).Ok? {
      var area := AreaText(GetOr(p, "areaDesc", JStr("?")), repr).value;
      assert BriefAlert(feature, inc, repr).value == "• ? — " + (area + ExpiresTail(p, inc, repr));
    }
    if "areaDesc" !in p {
      var ev := Str(GetOr(p, "event", JStr("?")), repr);
      assert "• " + ev + " — " + "?" == "• " + ev + " — ?";
      if "event" !in p {
        assert "• " + "?" + " — ?" == "• ? — ?";
      }
    }
  }

  /** `_brief_alert` raises exactly when the feature or its properties are not dictionaries, or the area has no usable length. */
  lemma BriefAlertRaises(feature: Json, inc: bool, repr: Json -> string)
    ensures BriefAlert(feature, inc, repr).Raised? <==>
      Properties(feature).Raised? ||
      var area := GetOr(Properties(feature).value, "areaDesc", JStr("?"));
      !(area.JStr? || area.JList? || area.JDict?) ||
      (area.JList? && |area.items| > MaxArea) || (area.JDict? && |area.entries| > MaxArea)
    ensures BriefAlert(feature, inc, repr).Raised? ==>
      BriefAlert(feature, inc, repr).error ==
        if Properties(feature).Raised? then AttributeError
        else if GetOr(Properties(feature).value, "areaDesc", JStr("?")).JDict? then KeyError
        else TypeError
  {
  }

  /** The headings, the property keys and the texts shown for absent keys, line by line (weather.py:54-58). */
  const Headings: seq<string> := ["Event", "Area", "Severity", "Description", "Instructions"]
  const Keys: seq<string> := ["event", "areaDesc", "severity", "description", "instruction"]
  const Defaults: seq<string> := ["Unknown", "Unknown", "Unknown", "No description available", "No specific instructions provided"]

  /** Line `k` of the verbose format. */
  function Labelled(p: map<string, Json>, k: nat, repr: Json -> string): string
    requires k < 5
  {
    Headings[k] + ": " + Str(GetOr(p, Keys[k], JStr(Defaults[k])), repr)
  }

  /** The five lines of `format_alert`, in order. */
  function AlertLines(p: map<string, Json>, repr: Json -> string): (r: seq<string>)
    ensures |r| == 5
  {
    [Labelled(p, 0, repr), Labelled(p, 1, repr), Labelled(p, 2, repr), Labelled(p, 3, repr), Labelled(p, 4, repr)]
  }

  /** `format_alert(feature)` (weather.py:51-59): five labelled lines separated by newlines. */
  function FormatAlert(feature: Json, repr: Json -> string): Result<string> {
    match Properties(feature)
    case Raised(e) => Raised(e)
    case Ok(p) => Ok(Join(AlertLines(p, repr), "\n"))
  }

  /** When no field holds a newline, the verbose format splits back into its five labelled lines. */
  lemma FormatAlertLines(feature: Json, repr: Json -> string)
    requires Properties(feature).Ok?
    requires var lines := AlertLines(Properties(feature).value, repr);
      forall k :: 0 <= k < |lines| ==> '\n' !in lines[k]
    ensures FormatAlert(feature, repr).Ok?
    ensures Split(FormatAlert(feature, repr).value, '\n') == AlertLines(Properties(feature).value, repr)
  {
    SplitJoin(AlertLines(Properties(feature).value, repr), '\n');
  }

  /** Each line starts with its heading; an absent key shows its default text. */
  lemma FormatAlertDefaults(p: map<string, Json>, repr: Json -> string)
    ensures forall k :: 0 <= k < 5 ==> Headings[k] + ": " <= AlertLines(p, repr)[k]
    ensures forall k :: 0 <= k < 5 && Keys[k] !in p ==> AlertLines(p, repr)[k] == Headings[k] + ": " + Defaults[k]
  {
    forall k | 0 <= k < 5
      ensures Headings[k] + ": " <= AlertLines(p, repr)[k]
      ensures Keys[k] !in p ==> AlertLines(p, repr)[k] == Headings[k] + ": " + Defaults[k]
    {
      assert AlertLines(p, repr)[k] == Labelled(p, k, repr);
    }
  }

  // ---------------------------------------------------------------------------
  // get_alerts
  // ---------------------------------------------------------------------------

  /** `(f.get("properties", {}).get("event", "") or "")`, which must be a string for `.lower()`. */
  function EventOf(f: Json): Result<string> {
    match Properties(f)
    case Raised(e) => Raised(e)
    case Ok(p) =>
      var ev := Or(GetOr(p, "event", JStr("")), JStr(""));
      if ev.JStr? then Ok(ev.s) else Raised(AttributeError)
  }

  /** The feature's event contains `q` once lower-cased. */
  predicate Selected(f: Json, q: string) {
    EventOf(f).Ok? && Contains(Lower(EventOf(f).value), q)
  }

  /** The filter comprehension at weather.py:85, with the first exception propagating. */
  function Filter(feats: seq<Json>, q: string): Result<seq<Json>>
    decreases |feats|
  {
    if feats == [] then Ok([])
    else
      match EventOf(feats[0])
      case Raised(e) => Raised(e)
      case Ok(ev) =>
        match Filter(feats[1..], q)
        case Raised(e) => Raised(e)
        case Ok(rest) => Ok((if Contains(Lower(ev), q) then [feats[0]] else []) + rest)
  }

  /** `[_brief_alert(f, inc) for f in feats]`, with the first exception propagating. */
  function BriefAlerts(feats: seq<Json>, inc: bool, repr: Json -> string): (r: Result<seq<string>>)
    ensures r.Ok? ==> |r.value| == |feats| && forall i :: 0 <= i < |feats| ==> BriefAlert(feats[i], inc, repr) == Ok(r.value[i])
    ensures r.Raised? <==> exists i :: 0 <= i < |feats| && BriefAlert(feats[i], inc, repr).Raised?
    decreases |feats|
  {
    if feats == [] then Ok([])
    else
      match BriefAlert(feats[0], inc, repr)
      case Raised(e) => Raised(e)
      case Ok(line) =>
        match BriefAlerts(feats[1..], inc, repr)
        case Raised(e) => Raised(e)
        case Ok(rest) =>
          assert forall i :: 0 <= i < |feats| ==> BriefAlert(feats[i], inc, repr) == Ok(([line] + rest)[i]) by {
            forall i | 0 < i < |feats| ensures BriefAlert(feats[i], inc, repr) == Ok(([line] + rest)[i]) {
              assert feats[i] == feats[1..][i - 1] && ([line] + rest)[i] == rest[i - 1];
            }
          }
          Ok([line] + rest)
  }

  /** The message for a filter that keeps nothing (weather.py:87); it is not capped. */
  function NoMatchFor(eventFilter: Json, repr: Json -> string): string {
    "No matching alerts for filter '" + Str(eventFilter, repr) + "'."
  }

  /** Everything after the filter: limit, format, join and cap (weather.py:90-98). */
  function ListAlerts(feats: seq<Json>, limit: Json, includeExpires: Json, repr: Json -> string): Result<string> {
    var n := ToInt(limit, 5);
    match BriefAlerts(feats[..Min(n, |feats|)], ToBool(includeExpires), repr)
    case Raised(e) => Raised(e)
    case Ok(lines) =>
      var out := Join(lines, "\n");
      Ok(Take(if out == "" then NoMatching else out, MaxChars))
  }

  /**
    `get_alerts(state, event_filter, limit, include_expires)` (weather.py:76-98)
    once the request has answered `data`: `None` when it failed. `repr` stands
    for the text Python gives lists, dictionaries and objects.
  */
  function GetAlerts(data: Option<map<string, Json>>, eventFilter: Json, limit: Json, includeExpires: Json,
                     repr: Json -> string): Result<string> {
    if data.None? || data.value == map[] || "features" !in data.value then Ok(Unavailable)
    else
      var feats := Or(data.value["features"], JList([]));
      if !Truthy(feats) then Ok(NoActive)
      else if !feats.JList? then Raised(TypeError)
      else if Truthy(eventFilter) then
        match Filter(feats.items, Lower(Str(eventFilter, repr)))
        case Raised(e) => Raised(e)
        case Ok(kept) =>
          if kept == [] then Ok(NoMatchFor(eventFilter, repr))
          else ListAlerts(kept, limit, includeExpires, repr)
      else ListAlerts(feats.items, limit, includeExpires, repr)
  }

  /** `state = (state or "").upper().strip()` (weather.py:73): the area code put in the request. */
  function AreaCode(state: Option<string>): string {
    Strip(Upper(if state.Some? then state.value else ""))
  }

  /** `ping()` (weather.py:101-103). */
  function Ping(): (r: string)
    ensures r == PingReply
  {
    PingReply
  }

  /** `echo_resource(message)` (weather.py:106-107). */
  function EchoResource(message: string): (r: string)
    ensures EchoPrefix <= r && r[|EchoPrefix|..] == message
  {
    EchoPrefix + message
  }

  // ---------------------------------------------------------------------------
  // Properties of get_alerts
  // ---------------------------------------------------------------------------

  /** No answer, an empty answer or one without `features` gives the fetch-failure message. */
  lemma NoDataMessage(data: Option<map<string, Json>>, f: Json, limit: Json, inc: Json, repr: Json -> string)
    requires data.None? || "features" !in data.value
    ensures GetAlerts(data, f, limit, inc, repr) == Ok(Unavailable)
  {
  }

  /** A falsy `features` value gives the no-alerts message. */
  lemma NoActiveMessage(data: map<string, Json>, f: Json, limit: Json, inc: Json, repr: Json -> string)
    requires "features" in data && !Truthy(data["features"])
    ensures GetAlerts(Some(data), f, limit, inc, repr) == Ok(NoActive)
  {
  }

  /** Positions, from `i` on, of the features the filter keeps, in increasing order. */
  function SelectedFrom(feats: seq<Json>, q: string, i: nat): seq<nat>
    requires i <= |feats|
    decreases |feats| - i
  {
    if i == |feats| then []
    else (if Selected(feats[i], q) then [i] else []) + SelectedFrom(feats, q, i + 1)
  }

  /** `kept[j]` is the feature at position `idx[j]`. */
  predicate Picks(feats: seq<Json>, kept: seq<Json>, idx: seq<nat>) {
    |kept| == |idx| && forall j :: 0 <= j < |idx| ==> idx[j] < |feats| && kept[j] == feats[idx[j]]
  }

  predicate Increasing(idx: seq<nat>) {
    forall j, k :: 0 <= j < k < |idx| ==> idx[j] < idx[k]
  }

  /** The positions in `idx` from `i` on are exactly those of the selected features. */
  predicate SelectedAt(feats: seq<Json>, q: string, idx: seq<nat>, i: nat) {
    forall k :: i <= k < |feats| ==> (Selected(feats[k], q) <==> k in idx)
  }

  /**
    `kept` lists, in their original order, exactly the features of `feats`
    the filter selects, `idx` giving their positions.
  */
  predicate Selection(feats: seq<Json>, q: string, kept: seq<Json>, idx: seq<nat>) {
    Picks(feats, kept, idx) && Increasing(idx) && SelectedAt(feats, q, idx, 0)
  }

  /** The filter raises exactly when some feature's event cannot be read. */
  lemma {:induction false} FilterRaises(feats: seq<Json>, q: string)
    ensures Filter(feats, q).Raised? <==> exists i :: 0 <= i < |feats| && EventOf(feats[i]).Raised?
    decreases |feats|
  {
    if feats != [] {
      FilterRaises(feats[1..], q);
      assert forall i :: 1 <= i < |feats| ==> feats[i] == feats[1..][i - 1];
      if exists i :: 0 <= i < |feats[1..]| && EventOf(feats[1..][i]).Raised? {
        var i :| 0 <= i < |feats[1..]| && EventOf(feats[1..][i]).Raised?;
        assert EventOf(feats[i + 1]).Raised?;
      }
    }
  }

  /**
    Otherwise the filter keeps, in their original order, exactly the features
    whose event contains the filter text.
  */
  lemma FilterKeeps(feats: seq<Json>, q: string)
    requires Filter(feats, q).Ok?
    ensures Selection(feats, q, Filter(feats, q).value, SelectedFrom(feats, q, 0))
  {
    assert feats[0..] == feats;
    FilterKeepsFrom(feats, q, 0);
  }

  lemma {:induction false} FilterKeepsFrom(feats: seq<Json>, q: string, i: nat)
    requires i <= |feats| && Filter(feats[i..], q).Ok?
    ensures var kept := Filter(feats[i..], q).value;
      var idx := SelectedFrom(feats, q, i);
      Picks(feats, kept, idx) && Increasing(idx) && (forall j :: 0 <= j < |idx| ==> i <= idx[j]) &&
      SelectedAt(feats, q, idx, i)
    decreases |feats| - i
  {
    if i < |feats| {
      assert feats[i..][0] == feats[i] && feats[i..][1..] == feats[i + 1..];
      FilterKeepsFrom(feats, q, i + 1);
      var rest := Filter(feats[i + 1..], q).value;
      var ridx := SelectedFrom(feats, q, i + 1);
      var sel := Selected(feats[i], q);
      var kept := (if sel then [feats[i]] else []) + rest;
      var idx := (if sel then [i] else []) + ridx;
      assert Filter(feats[i..], q).value == kept;
      PicksCons(feats, i, kept, rest, idx, ridx);
      IncreasingCons(i, idx, ridx);
      assert forall k :: i < k < |feats| ==> (k in idx <==> k in ridx);
    }
  }

  lemma PicksCons(feats: seq<Json>, i: nat, kept: seq<Json>, rest: seq<Json>, idx: seq<nat>, ridx: seq<nat>)
    requires i < |feats| && Picks(feats, rest, ridx)
    requires (kept == rest && idx == ridx) || (kept == [feats[i]] + rest && idx == [i] + ridx)
    ensures Picks(feats, kept, idx)
  {
  }

  lemma IncreasingCons(i: nat, idx: seq<nat>, ridx: seq<nat>)
    requires Increasing(ridx) && forall j :: 0 <= j < |ridx| ==> i + 1 <= ridx[j]
    requires idx == ridx || idx == [i] + ridx
    ensures Increasing(idx) && forall j :: 0 <= j < |idx| ==> i <= idx[j]
  {
  }

  /**
    On the listing path the answer is the brief lines of the first
    `min(n, |feats|)` selected features, `n = _to_int(limit, 5)`, joined by
    newlines and cut to MAX_CHARS; at least one line is listed, so the
    "No matching alerts." fallback (weather.py:95) is never used.
  */
  lemma ListAlertsLines(feats: seq<Json>, limit: Json, inc: Json, repr: Json -> string)
    requires feats != []
    ensures var m := Min(ToInt(limit, 5), |feats|);
      1 <= m <= MaxItems &&
      ListAlerts(feats, limit, inc, repr) ==
        match BriefAlerts(feats[..m], ToBool(inc), repr)
        case Raised(e) => Raised(e)
        case Ok(lines) => Ok(Take(Join(lines, "\n"), MaxChars))
  {
    var m := Min(ToInt(limit, 5), |feats|);
    ToIntPositive(limit);
    var r := BriefAlerts(feats[..m], ToBool(inc), repr);
    if r.Ok? {
      BriefLineNotEmpty(feats[0], ToBool(inc), repr);
      JoinNotEmpty(r.value);
    }
  }

  /** A brief line is never empty: it starts with a bullet. */
  lemma BriefLineNotEmpty(f: Json, inc: bool, repr: Json -> string)
    ensures BriefAlert(f, inc, repr).Ok? ==> BriefAlert(f, inc, repr).value != ""
  {
  }

  lemma JoinNotEmpty(lines: seq<string>)
    requires lines != [] && lines[0] != ""
    ensures Join(lines, "\n") != ""
  {
    JoinStartsWithFirst(lines, "\n");
  }

  lemma JoinStartsWithFirst(xs: seq<string>, sep: string)
    requires xs != []
    ensures xs[0] <= Join(xs, sep)
  {
  }

  /** Every answer fits in MAX_CHARS characters, except the filter-miss message, which quotes the filter whole. */
  lemma AnswerBounded(data: Option<map<string, Json>>, f: Json, limit: Json, inc: Json, repr: Json -> string)
    ensures GetAlerts(data, f, limit, inc, repr).Ok? ==>
      |GetAlerts(data, f, limit, inc, repr).value| <= MaxChars ||
      GetAlerts(data, f, limit, inc, repr).value == NoMatchFor(f, repr)
  {
    assert |Unavailable| <= MaxChars && |NoActive| <= MaxChars;
    if data.Some? && "features" in data.value {
      var feats := Or(data.value["features"], JList([]));
      if feats.JList? {
        ListAlertsBounded(feats.items, limit, inc, repr);
        if Truthy(f) && Filter(feats.items, Lower(Str(f, repr))).Ok? {
          ListAlertsBounded(Filter(feats.items, Lower(Str(f, repr))).value, limit, inc, repr);
        }
      }
    }
  }

  lemma ListAlertsBounded(feats: seq<Json>, limit: Json, inc: Json, repr: Json -> string)
    ensures ListAlerts(feats, limit, inc, repr).Ok? ==> |ListAlerts(feats, limit, inc, repr).value| <= MaxChars
  {
  }

  /** A filter that keeps nothing gives its message, quoting the filter as given. */
  lemma FilterMissMessage(data: map<string, Json>, f: Json, limit: Json, inc: Json, repr: Json -> string)
    requires "features" in data && data["features"].JList? && data["features"].items != []
    requires Truthy(f) && Filter(data["features"].items, Lower(Str(f, repr))) == Ok([])
    ensures GetAlerts(Some(data), f, limit, inc, repr) == Ok(NoMatchFor(f, repr))
  {
  }

  /** The area code is upper-case and trimmed. */
  lemma AreaCodeNormal(state: Option<string>)
    ensures var c := AreaCode(state);
      (c == [] || (!IsSpace(c[0]) && !IsSpace(c[|c| - 1]))) && NoLower(c)
  {
    var x := if state.Some? then state.value else "";
    TrimEnds(Upper(x), IsSpace);
    NoLowerAfterTrim(x);
  }

  /** No ASCII lower-case letter in `s`. */
  predicate NoLower(s: string) {
    forall i :: 0 <= i < |s| ==> !('a' <= s[i] <= 'z')
  }

  lemma NoLowerAfterTrim(x: string)
    ensures NoLower(Trim(Upper(x), IsSpace))
  {
    var s := Upper(x);
    forall i | 0 <= i < |s| ensures !('a' <= s[i] <= 'z') {
      UpperCharNotLower(x[i]);
    }
    NoLowerTrimStart(s);
    NoLowerTrimEnd(TrimStart(s, IsSpace));
  }

  lemma UpperCharNotLower(c: char)
    ensures !('a' <= UpperChar(c) <= 'z')
  {
  }

  lemma {:induction false} NoLowerTrimStart(s: string)
    requires NoLower(s)
    ensures NoLower(TrimStart(s, IsSpace))
    decreases |s|
  {
    if |s| > 0 && IsSpace(s[0]) {
      assert NoLower(s[1..]) by {
        assert forall i :: 0 <= i < |s| - 1 ==> s[1..][i] == s[i + 1];
      }
      NoLowerTrimStart(s[1..]);
    }
  }

  lemma {:induction false} NoLowerTrimEnd(s: string)
    requires NoLower(s)
    ensures NoLower(TrimEnd(s, IsSpace))
    decreases |s|
  {
    if |s| > 0 && IsSpace(s[|s| - 1]) {
      NoLowerTrimEnd(s[..|s| - 1]);
    }
  }

  /** `echo_resource` keeps the message whole after its prefix. */
  lemma EchoInverse(m1: string, m2: string)
    ensures EchoResource(m1) == EchoResource(m2) <==> m1 == m2
  {
    if EchoResource(m1) == EchoResource(m2) {
      assert m1 == EchoResource(m1)[|EchoPrefix|..];
    }
  }
}
