/**
  `parse_kv_pairs` (client.py:26-44): the tail of an `@server.tool ...` line
  becomes a dictionary of typed arguments. The regular expression
  `(\w+)=("([^"]*)"|[^\s]+)` is scanned left to right without overlaps, as
  `re.finditer` does; each raw value loses its surrounding quotes and is then
  coerced to a boolean, an integer or left a string.
*/
module ArgParser {
  import opened Wrappers
  import opened PyText
  import opened PyValues

  /** One match in the tail: where it starts, group 1 (the key) and group 2 (the raw value). */
  datatype KvMatch = KvMatch(start: nat, key: string, raw: string) {
    function ValueStart(): nat { start + |key| + 1 }
    function End(): nat { start + |key| + 1 + |raw| }
  }

  predicate NotSpace(c: char) { !IsSpace(c) }

  predicate IsQuote(c: char) { c == '"' }

  /** The quoted alternative `"([^"]*)"`. */
  predicate QuotedForm(raw: string) {
    |raw| >= 2 && raw[0] == '"' && raw[|raw| - 1] == '"' && '"' !in raw[1..|raw| - 1]
  }

  /**
    The pattern matches at the very start of `t` with group 1 `key` and group 2
    `raw`: a run of word characters, `=`, then the quoted alternative or, only
    when that one cannot match, the longest run of non-whitespace characters.
  */
  predicate HeadIs(t: string, key: string, raw: string) {
    var v := |key| + 1;
    var e := v + |raw|;
    && e <= |t|
    && IsWord(key)
    && t[..|key|] == key
    && t[|key|] == '='
    && t[v..e] == raw
    && (|| QuotedForm(raw)
        || (&& |raw| > 0
            && (forall k :: 0 <= k < |raw| ==> !IsSpace(raw[k]))
            && (e == |t| || IsSpace(t[e]))
            && (raw[0] == '"' ==> '"' !in t[v + 1..])))
  }

  /** `m` is a match of the pattern in `s` starting at `m.start`. */
  predicate IsMatch(s: string, m: KvMatch) {
    m.start <= |s| && HeadIs(s[m.start..], m.key, m.raw)
  }

  /**
    Where group 2 ends when it starts at `v`: after the closing quote when the
    quoted alternative matches, else after the longest run of non-whitespace
    (`v` itself when the value is empty and nothing matches).
  */
  function ValueEnd(s: string, v: nat): (e: nat)
    requires v <= |s|
    ensures v <= e <= |s|
  {
    if v < |s| && s[v] == '"' && IndexOf(s, '"', v + 1) < |s| then IndexOf(s, '"', v + 1) + 1
    else RunEnd(s, v, NotSpace)
  }

  /** What the engine matches at the start of `t`, as group 1 and group 2. */
  function HeadMatch(t: string): (r: Option<(string, string)>)
    ensures r.Some? ==> 0 < |r.value.0| && 0 < |r.value.1| && |r.value.0| + 1 + |r.value.1| <= |t|
  {
    var k := RunEnd(t, 0, IsWordChar);
    if k == 0 || k == |t| || t[k] != '=' then None
    else
      var e := ValueEnd(t, k + 1);
      if e == k + 1 then None else Some((t[..k], t[k + 1..e]))
  }

  /**
    The match the regular expression engine finds when it starts at index `i`,
    if any; the engine looks only at what follows `i`.
  */
  function MatchAt(s: string, i: nat): (r: Option<KvMatch>)
    requires i <= |s|
    ensures r.Some? ==> r.value.start == i && i < r.value.End() <= |s|
  {
    match HeadMatch(s[i..])
    case None => None
    case Some((key, raw)) => Some(KvMatch(i, key, raw))
  }

  /** What the engine finds at the start of `t` is a match of the pattern. */
  lemma HeadMatchSound(t: string)
    ensures HeadMatch(t).Some? ==> HeadIs(t, HeadMatch(t).value.0, HeadMatch(t).value.1)
  {
    var k := RunEnd(t, 0, IsWordChar);
    if k == 0 || k == |t| || t[k] != '=' {
      return;
    }
    var v := k + 1;
    WordPrefix(t, k);
    if v < |t| && t[v] == '"' && IndexOf(t, '"', v + 1) < |t| {
      var q := IndexOf(t, '"', v + 1);
      assert HeadMatch(t) == Some((t[..k], t[v..q + 1]));
      QuotedHeadSound(t, k, q);
    } else {
      var e := RunEnd(t, v, NotSpace);
      if e > v {
        assert HeadMatch(t) == Some((t[..k], t[v..e]));
        UnquotedHeadSound(t, k, e);
      }
    }
  }

  /** The run of word characters at the start of `t` is a word. */
  lemma WordPrefix(t: string, k: nat)
    requires 0 < k <= |t| && k == RunEnd(t, 0, IsWordChar)
    ensures IsWord(t[..k])
  {
    forall j | 0 <= j < k ensures IsWordChar(t[..k][j]) {
      assert t[..k][j] == t[j];
    }
  }

  lemma QuotedHeadSound(t: string, k: nat, q: nat)
    requires 0 < k < q < |t| && k + 1 < q
    requires IsWord(t[..k]) && t[k] == '=' && t[k + 1] == '"' && t[q] == '"'
    requires forall j :: k + 2 <= j < q ==> t[j] != '"'
    ensures HeadIs(t, t[..k], t[k + 1..q + 1])
  {
    var raw := t[k + 1..q + 1];
    assert forall j :: 1 <= j < |raw| - 1 ==> raw[j] == t[k + 1 + j];
    assert QuotedForm(raw);
  }

  lemma UnquotedHeadSound(t: string, k: nat, e: nat)
    requires 0 < k < k + 1 < e <= |t|
    requires IsWord(t[..k]) && t[k] == '='
    requires forall j :: k + 1 <= j < e ==> NotSpace(t[j])
    requires e == |t| || !NotSpace(t[e])
    requires t[k + 1] == '"' ==> IndexOf(t, '"', k + 2) == |t|
    ensures HeadIs(t, t[..k], t[k + 1..e])
  {
    var raw := t[k + 1..e];
    assert forall j :: 0 <= j < |raw| ==> raw[j] == t[k + 1 + j];
    if t[k + 1] == '"' {
      var rest := t[k + 2..];
      assert forall j :: 0 <= j < |rest| ==> rest[j] == t[k + 2 + j];
      assert '"' !in rest;
    }
  }

  /** Every match of the pattern at the start of `t` is the one the engine finds: there is at most one. */
  lemma HeadMatchComplete(t: string, key: string, raw: string)
    requires HeadIs(t, key, raw)
    ensures HeadMatch(t) == Some((key, raw))
  {
    var k := |key|;
    assert forall j :: 0 <= j < k ==> t[j] == key[j];
    RunEndUnique(t, 0, IsWordChar, k);
    assert t[..k] == key;
    if QuotedForm(raw) {
      QuotedValueEnd(t, k + 1, raw);
    } else {
      UnquotedValueEnd(t, k + 1, raw);
    }
  }

  /** A quoted group 2 ends right after its closing quote. */
  lemma QuotedValueEnd(t: string, v: nat, raw: string)
    requires v + |raw| <= |t| && t[v..v + |raw|] == raw && QuotedForm(raw)
    ensures ValueEnd(t, v) == v + |raw|
  {
    var q := v + |raw| - 1;
    assert t[v] == raw[0];
    assert t[q] == raw[|raw| - 1];
    forall j | v + 1 <= j < q ensures t[j] != '"' {
      assert t[j] == raw[1..|raw| - 1][j - v - 1];
    }
    IndexOfUnique(t, '"', v + 1, q);
  }

  /** An unquoted group 2 ends where the run of non-whitespace ends. */
  lemma UnquotedValueEnd(t: string, v: nat, raw: string)
    requires v + |raw| <= |t| && t[v..v + |raw|] == raw && |raw| > 0
    requires forall k :: 0 <= k < |raw| ==> !IsSpace(raw[k])
    requires v + |raw| == |t| || IsSpace(t[v + |raw|])
    requires raw[0] == '"' ==> '"' !in t[v + 1..]
    ensures ValueEnd(t, v) == v + |raw|
  {
    var e := v + |raw|;
    forall j | v <= j < e ensures NotSpace(t[j]) {
      assert t[j] == raw[j - v];
    }
    RunEndUnique(t, v, NotSpace, e);
    if t[v] == '"' {
      assert raw[0] == '"';
      forall j | v + 1 <= j < |t| ensures t[j] != '"' {
        assert t[j] == t[v + 1..][j - v - 1];
      }
      IndexOfUnique(t, '"', v + 1, |t|);
    }
  }

  /** What the engine finds at `i` is a match of the pattern. */
  lemma MatchAtSound(s: string, i: nat)
    requires i <= |s|
    ensures MatchAt(s, i).Some? ==> IsMatch(s, MatchAt(s, i).value)
  {
    HeadMatchSound(s[i..]);
  }

  /** Every match of the pattern is the one the engine finds at its start: there is at most one per index. */
  lemma MatchAtComplete(s: string, m: KvMatch)
    requires IsMatch(s, m)
    ensures MatchAt(s, m.start) == Some(m)
  {
    HeadMatchComplete(s[m.start..], m.key, m.raw);
  }

  /** The matches `re.finditer` yields from index `i` on. */
  function MatchesFrom(s: string, i: nat): seq<KvMatch>
    requires i <= |s|
    decreases |s| - i
  {
    if i == |s| then []
    else
      match MatchAt(s, i)
      case Some(m) => [m] + MatchesFrom(s, m.End())
      case None => MatchesFrom(s, i + 1)
  }

  function Matches(s: string): seq<KvMatch> {
    MatchesFrom(s, 0)
  }

  /** The engine, started at `m.start`, finds `m`. */
  predicate FoundAt(s: string, m: KvMatch) {
    m.start <= |s| && MatchAt(s, m.start) == Some(m)
  }

  /** Matches found in `s`, at or after `i`, in order and without overlap. */
  predicate OrderedMatches(s: string, ms: seq<KvMatch>, i: nat) {
    AllFound(s, ms) && InOrder(ms, i)
  }

  predicate AllFound(s: string, ms: seq<KvMatch>) {
    forall j :: 0 <= j < |ms| ==> FoundAt(s, ms[j])
  }

  /** Each match starts at or after `i` and ends before the next one starts. */
  predicate InOrder(ms: seq<KvMatch>, i: nat) {
    && (forall j :: 0 <= j < |ms| ==> i <= ms[j].start)
    && (forall j :: 0 <= j < |ms| - 1 ==> ms[j].End() <= ms[j + 1].start)
  }

  /** Every match yielded is a match of the pattern at or after `i`, and they come in order without overlapping. */
  lemma {:induction false} MatchesFromSound(s: string, i: nat)
    requires i <= |s|
    ensures OrderedMatches(s, MatchesFrom(s, i), i)
    decreases |s| - i
  {
    if i < |s| {
      var r := MatchAt(s, i);
      if r.Some? {
        var m := r.value;
        MatchesFromFound(s, i, m);
        MatchesFromSound(s, m.End());
        OrderedCons(s, m, MatchesFrom(s, m.End()), i);
      } else {
        MatchesFromNotFound(s, i);
        MatchesFromSound(s, i + 1);
      }
    }
  }

  lemma MatchesFromFound(s: string, i: nat, m: KvMatch)
    requires i < |s| && MatchAt(s, i) == Some(m)
    ensures MatchesFrom(s, i) == [m] + MatchesFrom(s, m.End())
  {
  }

  lemma MatchesFromNotFound(s: string, i: nat)
    requires i < |s| && MatchAt(s, i) == None
    ensures MatchesFrom(s, i) == MatchesFrom(s, i + 1)
  {
  }

  lemma OrderedCons(s: string, m: KvMatch, rest: seq<KvMatch>, i: nat)
    requires FoundAt(s, m) && i <= m.start && OrderedMatches(s, rest, m.End())
    ensures OrderedMatches(s, [m] + rest, i)
  {
    FoundCons(s, m, rest);
    InOrderCons(m, rest, i);
  }

  lemma FoundCons(s: string, m: KvMatch, rest: seq<KvMatch>)
    requires FoundAt(s, m) && AllFound(s, rest)
    ensures AllFound(s, [m] + rest)
  {
    var ms := [m] + rest;
    forall j | 0 <= j < |ms| ensures FoundAt(s, ms[j]) {
      if j > 0 {
        assert ms[j] == rest[j - 1];
      }
    }
  }

  lemma InOrderCons(m: KvMatch, rest: seq<KvMatch>, i: nat)
    requires i <= m.start && m.start <= m.End() && InOrder(rest, m.End())
    ensures InOrder([m] + rest, i)
  {
    var ms := [m] + rest;
    forall j | 0 <= j < |ms| ensures i <= ms[j].start {
      if j > 0 {
        assert ms[j] == rest[j - 1];
      }
    }
    forall j | 0 <= j < |ms| - 1 ensures ms[j].End() <= ms[j + 1].start {
      assert ms[j + 1] == rest[j];
      if j > 0 {
        assert ms[j] == rest[j - 1];
      }
    }
  }

  /** No match in `ms` covers index `p`. */
  predicate Uncovered(ms: seq<KvMatch>, p: nat) {
    forall j :: 0 <= j < |ms| ==> !(ms[j].start <= p < ms[j].End())
  }

  /** No match of the pattern starts at an index, at or after `i`, that no yielded match covers: the text between matches is skipped. */
  lemma MatchesFromSkipsOnlyNonMatches(s: string, i: nat, p: nat)
    requires i <= p < |s| && Uncovered(MatchesFrom(s, i), p)
    ensures MatchAt(s, p) == None
    ensures forall m :: IsMatch(s, m) ==> m.start != p
  {
    ScanSkipsUncovered(s, i, p);
    forall m | IsMatch(s, m) ensures m.start != p {
      MatchAtComplete(s, m);
    }
  }

  lemma {:induction false} ScanSkipsUncovered(s: string, i: nat, p: nat)
    requires i <= p < |s| && Uncovered(MatchesFrom(s, i), p)
    ensures MatchAt(s, p) == None
    decreases |s| - i
  {
    var r := MatchAt(s, i);
    if r.Some? {
      var m := r.value;
      MatchesFromFound(s, i, m);
      UncoveredTail(m, MatchesFrom(s, m.End()), p);
      ScanSkipsUncovered(s, m.End(), p);
    } else if p > i {
      MatchesFromNotFound(s, i);
      ScanSkipsUncovered(s, i + 1, p);
    }
  }

  lemma UncoveredTail(m: KvMatch, rest: seq<KvMatch>, p: nat)
    requires Uncovered([m] + rest, p)
    ensures !(m.start <= p < m.End()) && Uncovered(rest, p)
  {
    assert ([m] + rest)[0] == m;
    forall j | 0 <= j < |rest| ensures !(rest[j].start <= p < rest[j].End()) {
      assert rest[j] == ([m] + rest)[j + 1];
    }
  }

  /** client.py:35: the surrounding quotes are stripped when the raw value starts and ends with one. */
  function Unquote(raw: string): string {
    if |raw| > 0 && raw[0] == '"' && raw[|raw| - 1] == '"' then Trim(raw, IsQuote) else raw
  }

  /** A double-quoted value keeps exactly what lies between its quotes, whitespace included. */
  lemma UnquoteQuoted(raw: string)
    requires QuotedForm(raw)
    ensures Unquote(raw) == raw[1..|raw| - 1]
  {
    var inner := raw[1..|raw| - 1];
    assert raw == ['"'] + inner + ['"'];
    QuotesTrimmed(inner);
  }

  lemma QuotesTrimmed(inner: string)
    requires '"' !in inner
    ensures Trim(['"'] + inner + ['"'], IsQuote) == inner
  {
    var t := inner + ['"'];
    assert (['"'] + inner + ['"'])[1..] == t;
    if inner == [] {
      assert TrimStart(t, IsQuote) == TrimStart(t[1..], IsQuote);
      assert t[1..] == [];
    } else {
      InnerKept(inner);
      assert t[0] == inner[0] && t[..|t| - 1] == inner;
    }
  }

  lemma InnerKept(inner: string)
    requires '"' !in inner && inner != []
    ensures !IsQuote(inner[0]) && !IsQuote(inner[|inner| - 1])
    ensures TrimEnd(inner, IsQuote) == inner
  {
    assert inner[0] in inner && inner[|inner| - 1] in inner;
  }

  /** client.py:36-42: a case-insensitive `true`/`false` becomes a boolean, else an `int()`-parsable text an integer, else it stays a string. */
  function Coerce(v: string): Value {
    var low := Lower(v);
    if low == "true" || low == "false" then VBool(low == "true")
    else
      match PyInt(v)
      case Some(n) => VInt(n)
      case None => VStr(v)
  }

  /** The text a user types for an argument value. */
  function Render(x: Value): string {
    match x
    case VBool(b) => if b then "true" else "false"
    case VInt(i) => DecimalString(i)
    case VStr(s) => s
  }

  /** A string stays a string when it reads neither as a boolean nor as an integer. */
  predicate PlainString(s: string) {
    Lower(s) != "true" && Lower(s) != "false" && PyInt(s).None?
  }

  /** Coercion reads back every value a user can write: booleans, integers `str` can write, and plain strings. */
  lemma CoerceRender(x: Value)
    requires x.VInt? ==> StrFits(x.i)
    requires x.VStr? ==> PlainString(x.s)
    ensures Coerce(Render(x)) == x
  {
    match x
    case VBool(b) =>
      assert Lower("true") == "true";
      assert Lower("false") == "false";
    case VInt(n) =>
      CoerceDecimal(n);
    case VStr(s) =>
  }

  /** The decimal text of an integer within the digit limit is coerced to that integer. */
  lemma CoerceDecimal(n: int)
    requires StrFits(n)
    ensures Coerce(DecimalString(n)) == VInt(n)
  {
    DecimalNotBoolean(n);
    PyIntOfDecimalString(n);
  }

  /** A numeral longer than the digit limit stays a string: `int()` raises and the `except` keeps it. */
  lemma CoerceLongNumeral(n: int)
    requires !StrFits(n)
    ensures Coerce(DecimalString(n)) == VStr(DecimalString(n))
  {
    DecimalNotBoolean(n);
    PyIntOfLongNumeral(n);
  }

  /** A decimal numeral ends with a digit, so it is neither `true` nor `false` in any case. */
  lemma DecimalNotBoolean(n: int)
    ensures Lower(DecimalString(n)) != "true" && Lower(DecimalString(n)) != "false"
  {
    var s := DecimalString(n);
    var d := NatDigits(if n < 0 then -n else n);
    assert s[|s| - 1] == d[|d| - 1];
    assert IsDigit(s[|s| - 1]);
    var low := Lower(s);
    assert low[|s| - 1] == s[|s| - 1];
    assert low[|low| - 1] != 'e';
  }

  /** The dictionary after writing each match in turn, later writes replacing earlier ones (client.py:43). */
  function Insert(acc: map<string, Value>, ms: seq<KvMatch>): map<string, Value>
    decreases |ms|
  {
    if ms == [] then acc else Insert(acc[ms[0].key := Coerce(Unquote(ms[0].raw))], ms[1..])
  }

  /** The dictionary `parse_kv_pairs(s)` returns. */
  function ParsePairs(s: string): map<string, Value> {
    Insert(map[], Matches(s))
  }

  /** The keys of the matches in `ms`. */
  function KeysOf(ms: seq<KvMatch>): set<string> {
    set j | 0 <= j < |ms| :: ms[j].key
  }

  lemma KeysOfCons(ms: seq<KvMatch>)
    requires ms != []
    ensures KeysOf(ms) == {ms[0].key} + KeysOf(ms[1..])
  {
    forall k | k in KeysOf(ms) ensures k in {ms[0].key} + KeysOf(ms[1..]) {
      var j :| 0 <= j < |ms| && ms[j].key == k;
      if j > 0 {
        assert ms[1..][j - 1].key == k;
      }
    }
  }

  lemma {:induction false} InsertKeys(acc: map<string, Value>, ms: seq<KvMatch>)
    ensures Insert(acc, ms).Keys == acc.Keys + KeysOf(ms)
    decreases |ms|
  {
    if ms != [] {
      InsertKeys(acc[ms[0].key := Coerce(Unquote(ms[0].raw))], ms[1..]);
      KeysOfCons(ms);
    }
  }

  /** A key no match carries keeps its value. */
  lemma {:induction false} InsertUntouched(acc: map<string, Value>, ms: seq<KvMatch>, k: string)
    requires k in acc
    requires forall j :: 0 <= j < |ms| ==> ms[j].key != k
    ensures k in Insert(acc, ms) && Insert(acc, ms)[k] == acc[k]
    decreases |ms|
  {
    if ms != [] {
      InsertUntouched(acc[ms[0].key := Coerce(Unquote(ms[0].raw))], ms[1..], k);
    }
  }

  /** When a key repeats, the last match carrying it decides its value. */
  lemma {:induction false} InsertLastWins(acc: map<string, Value>, ms: seq<KvMatch>, j: nat)
    requires j < |ms|
    requires forall l :: j < l < |ms| ==> ms[l].key != ms[j].key
    ensures ms[j].key in Insert(acc, ms)
    ensures Insert(acc, ms)[ms[j].key] == Coerce(Unquote(ms[j].raw))
    decreases |ms|
  {
    var acc' := acc[ms[0].key := Coerce(Unquote(ms[0].raw))];
    if j == 0 {
      InsertUntouched(acc', ms[1..], ms[0].key);
    } else {
      InsertLastWins(acc', ms[1..], j - 1);
    }
  }

  /** The keys of the parsed dictionary are exactly the keys of the matches. */
  lemma ParsePairsKeys(s: string)
    ensures ParsePairs(s).Keys == KeysOf(Matches(s))
  {
    InsertKeys(map[], Matches(s));
  }

  /** The matches `Matches(s)` lists are matches of the pattern, in order and without overlap. */
  lemma MatchesSound(s: string)
    ensures OrderedMatches(s, Matches(s), 0)
    ensures forall j :: 0 <= j < |Matches(s)| ==> IsMatch(s, Matches(s)[j])
  {
    MatchesFromSound(s, 0);
    forall j | 0 <= j < |Matches(s)| ensures IsMatch(s, Matches(s)[j]) {
      MatchAtSound(s, Matches(s)[j].start);
    }
  }

  /** Every key of the parsed dictionary is a run of word characters. */
  lemma ParsePairsKeysAreWords(s: string)
    ensures forall k :: k in ParsePairs(s) ==> IsWord(k)
  {
    var ms := Matches(s);
    ParsePairsKeys(s);
    MatchesSound(s);
    forall k | k in ParsePairs(s) ensures IsWord(k) {
      var j :| 0 <= j < |ms| && ms[j].key == k;
      assert IsMatch(s, ms[j]);
    }
  }

  /** A key that repeats holds the coerced value of its last match. */
  lemma ParsePairsLastWins(s: string, j: nat)
    requires j < |Matches(s)|
    requires forall l :: j < l < |Matches(s)| ==> Matches(s)[l].key != Matches(s)[j].key
    ensures Matches(s)[j].key in ParsePairs(s)
    ensures ParsePairs(s)[Matches(s)[j].key] == Coerce(Unquote(Matches(s)[j].raw))
  {
    InsertLastWins(map[], Matches(s), j);
  }

  /** A lone `key=value` with an unquoted value gives that one key, holding the coerced value. */
  lemma ParseUnquotedPair(k: string, v: string)
    requires IsWord(k) && |v| > 0 && v[0] != '"'
    requires forall i :: 0 <= i < |v| ==> !IsSpace(v[i])
    ensures ParsePairs(k + "=" + v) == map[k := Coerce(v)]
  {
    var s := k + "=" + v;
    var m := KvMatch(0, k, v);
    assert s[..|k|] == k && s[|k|] == '=' && s[|k| + 1..] == v;
    MatchAtComplete(s, m);
    SingleMatch(s, m);
  }

  /** A lone `key="text"` gives that one key, holding the coerced text between the quotes, spaces included. */
  lemma ParseQuotedPair(k: string, t: string)
    requires IsWord(k) && '"' !in t
    ensures ParsePairs(k + "=\"" + t + "\"") == map[k := Coerce(t)]
  {
    var raw := "\"" + t + "\"";
    var s := k + "=" + raw;
    assert s == k + "=\"" + t + "\"";
    var m := KvMatch(0, k, raw);
    assert raw[1..|raw| - 1] == t;
    assert QuotedForm(raw);
    assert s[..|k|] == k && s[|k|] == '=' && s[|k| + 1..] == raw;
    MatchAtComplete(s, m);
    SingleMatch(s, m);
    UnquoteQuoted(raw);
  }

  /** A match spanning the whole tail is the only one, and gives a one-entry dictionary. */
  lemma SingleMatch(s: string, m: KvMatch)
    requires |s| > 0 && MatchAt(s, 0) == Some(m) && m.End() == |s|
    ensures ParsePairs(s) == map[m.key := Coerce(Unquote(m.raw))]
  {
    assert MatchesFrom(s, 0) == [m] + MatchesFrom(s, |s|);
    assert Matches(s) == [m];
    assert Insert(map[], [m]) == Insert(map[m.key := Coerce(Unquote(m.raw))], []);
  }

  function Shift(m: KvMatch, n: nat): KvMatch {
    m.(start := m.start + n)
  }

  /** The engine only looks forward: what precedes index `n` does not change the match found after it. */
  lemma MatchAtSuffix(s: string, n: nat, i: nat)
    requires n + i <= |s|
    ensures MatchAt(s, n + i) == match MatchAt(s[n..], i) case Some(m) => Some(Shift(m, n)) case None => None
  {
    assert s[n + i..] == s[n..][i..];
  }

  /** `parse_kv_pairs`: walks the matches `re.finditer` yields and writes each one into the dictionary (client.py:31-43). */
  method ParseKvPairs(s: string) returns (pairs: map<string, Value>)
    ensures pairs == ParsePairs(s)
  {
    var ms := Matches(s);
    pairs := map[];
    for j := 0 to |ms|
      invariant Insert(pairs, ms[j..]) == ParsePairs(s)
    {
      var m := ms[j];
      assert ms[j..][1..] == ms[j + 1..];
      pairs := pairs[m.key := Coerce(Unquote(m.raw))];
    }
  }
}
