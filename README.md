# Weather MCP chat: a verified model of its core

The system is a console chat client (`client.py`) that talks to a Model
Context Protocol tool server for US weather alerts (`weather.py`). This project
models in Dafny the parts of both that decide what happens to a line of text
or a piece of data:

- **Argument parsing.** The client turns the tail of an
  `@server.tool key=value ...` line into a dictionary of typed arguments. The
  model follows `re.finditer` over the pattern `(\w+)=("([^"]*)"|[^\s]+)`,
  then quote stripping, then the boolean and integer coercion
  (`arg_parser.dfy`).
- **Result rendering.** A tool result becomes display text. Text parts of a
  `content` list come first, then compact JSON cut to 3000 characters, then
  the object's own `str` (`result_normalizer.dfy`).
- **Session bootstrap.** The client's session comes from an ordered fallback
  over what the MCP client object offers. The client is a class whose
  `sessions` and call trace change as operations run
  (`session_bootstrap.dfy`).
- **Tool listing.** The `Tools: ...` line shown by `help`, and the fallback
  used when building it raises (`tool_catalog.dfy`).
- **Line dispatch.** The decision each console line goes through: exit or
  quit, clear, help, a direct tool call, or chat with the agent
  (`dispatcher.dfy`).
- **Weather server.** Argument coercion, the brief and verbose alert
  formatters, everything `get_alerts` does once the National Weather Service
  answer is in hand, `ping` and the echo resource (`weather.dfy`).

Python's own behaviour is modelled explicitly where the code relies on it, in
`py_text.dfy`, `py_values.dfy` and `wrappers.dfy`:

- `str.strip` with the `isspace` characters, ASCII `lower`/`upper`, `int()` on
  text, slicing, `sep.join` and `split`.
- Truthiness, `or`, `dict.get` and `getattr`.
- The exception a construct raises, as a `Result`.

Imperative code stays imperative, and each method is proved equal to a
specification function that the lemmas then reason about:

- `parse_kv_pairs` and the loops of `tool_result_to_str` and
  `list_tools_text` are methods with loops.
- `open_weather_session` is a method on a `Client` class.

### Behaviour worth knowing

- **Quoted values are coerced too.** client.py:35-42 strips the quotes and
  then coerces, so `flag="true"` gives a boolean and `n="5"` an integer
  (`ArgParser.ParseQuotedPair`).
- **Only the JSON fallback is capped.** The slice `[:3000]` at client.py:85
  applies to the JSON text alone. A string result, extracted text and the
  object's `str` are returned whole (`ResultNormalizer.ObjectOutcomes`).
- **The filter-miss message is uncapped.** On the server, `MAX_CHARS` bounds
  every `get_alerts` answer except the filter-miss message (weather.py:87),
  which quotes the filter whole (`Weather.AnswerBounded`).
- **One fallback is unreachable.** The `"No matching alerts."` fallback at
  weather.py:95 can never be used: at least one brief line is always listed,
  and it is never empty (`Weather.ListAlertsLines`).

## Model

| member | source | states |
|---|---|---|
| ArgParser.HeadIs | client.py:32 | defines a match of the argument pattern at the start of a text, declaratively: a word key, `=`, then the quoted form or else the longest run of non-whitespace; `HeadMatchSound` and `HeadMatchComplete` tie the engine to it |
| ArgParser.HeadMatch | client.py:32 | what the engine matches at the start of a text has a non-empty key and a non-empty raw value, both inside the text |
| ArgParser.MatchAt | client.py:32 | a match found at index i starts at i and ends after i, within the text |
| ArgParser.HeadMatchSound | client.py:32 | what the engine finds at the start of a text is a match of the pattern: a word key, `=`, then the quoted form or, when that cannot match, a maximal run of non-whitespace |
| ArgParser.HeadMatchComplete | client.py:32 | every match of the pattern at the start of a text is the one the engine finds, so there is at most one |
| ArgParser.QuotedValueEnd | client.py:32 | a quoted value ends right after its closing quote |
| ArgParser.UnquotedValueEnd | client.py:32 | an unquoted value ends where its run of non-whitespace ends |
| ArgParser.MatchAtSound | client.py:32 | the match found at any index is a match of the pattern there |
| ArgParser.MatchAtComplete | client.py:32 | any match of the pattern at an index is the one found there |
| ArgParser.MatchesFrom | client.py:32 | defines the left-to-right, non-overlapping scan of `re.finditer` from an index; `MatchesFromSound` and `MatchesFromSkipsOnlyNonMatches` state what it yields and what it skips |
| ArgParser.Matches | client.py:32 | defines the scan from the start of the tail |
| ArgParser.MatchesFromSound | client.py:32 | the matches `finditer` yields are matches of the pattern, in increasing order and without overlap |
| ArgParser.MatchesFromSkipsOnlyNonMatches | client.py:32 | no match of the pattern starts at an index that no yielded match covers: skipped text holds no match |
| ArgParser.MatchAtSuffix | client.py:32 | the engine only looks forward: the text before an index does not change the match found after it |
| ArgParser.Unquote | client.py:35 | defines `raw.strip('"')` when the raw value starts and ends with a quote, else the raw value; `UnquoteQuoted` states what it keeps |
| ArgParser.UnquoteQuoted | client.py:35 | a double-quoted raw value keeps exactly what lies between its quotes, whitespace included |
| ArgParser.Coerce | client.py:36-42 | defines the coercion: `true`/`false` in any case to a boolean, else `int()` when it parses, else the string; `CoerceRender`, `CoerceDecimal` and `CoerceLongNumeral` state what it gives |
| ArgParser.CoerceRender | client.py:36-42 | coercion reads back every value a user can type: `true`/`false` as booleans, a decimal numeral of at most 4300 digits as its integer, and any other string unchanged |
| ArgParser.CoerceDecimal | client.py:39-40 | the decimal text of an integer of at most 4300 digits is coerced to that integer |
| ArgParser.CoerceLongNumeral | client.py:39-42 | a numeral of more than 4300 digits stays a string: `int()` raises ValueError and the `except` keeps the text |
| ArgParser.Insert | client.py:43 | defines the dictionary writes `pairs[k] = v`, one per match in order; `InsertKeys`, `InsertUntouched` and `InsertLastWins` state their effect |
| ArgParser.ParsePairs | client.py:31-44 | defines the dictionary `parse_kv_pairs` returns; the `ParsePairs*` lemmas state its keys and values |
| ArgParser.InsertKeys | client.py:43 | after the writes, the keys are the keys already present plus the keys of the matches |
| ArgParser.InsertUntouched | client.py:43 | a key that no match carries keeps its value |
| ArgParser.InsertLastWins | client.py:43 | when a key repeats, the last match that carries it decides its value |
| ArgParser.ParsePairsKeys | client.py:31-44 | the keys of the parsed dictionary are exactly the keys of the matches |
| ArgParser.MatchesSound | client.py:32 | every match listed for a text is a match of the pattern, in order and without overlap |
| ArgParser.ParsePairsKeysAreWords | client.py:31-44 | every key of the parsed dictionary is a run of word characters |
| ArgParser.ParsePairsLastWins | client.py:31-44 | a key's value is the coerced, unquoted value of its last match |
| ArgParser.ParseUnquotedPair | client.py:26-44 | a lone `key=value` with an unquoted value gives exactly that key with the coerced value |
| ArgParser.ParseQuotedPair | client.py:26-44 | a lone `key="text"` gives exactly that key with the text between the quotes, spaces included, coerced like an unquoted value |
| ArgParser.SingleMatch | client.py:31-44 | a match that spans the whole tail is the only one and gives a one-entry dictionary |
| ArgParser.ParseKvPairs | client.py:26-44 | the loop over the matches `finditer` yields builds exactly the dictionary `ParsePairs` specifies |
| ResultNormalizer.ContentField | client.py:66 | defines `content or outputs or data`; `ContentPrecedence` states the precedence |
| ResultNormalizer.Fragment | client.py:69-78 | defines what one part appends to `texts`, one branch per case of the source; `FragmentsOfOne` ties it to the list |
| ResultNormalizer.Fragments | client.py:68-78 | defines `texts` after the loop; `ExtractTexts` is proved equal to it and `FragmentsAppend` states that parts are read in order |
| ResultNormalizer.KeptStrings | client.py:79 | defines the strings `join` receives, or `None` where it raises; `KeptStringsNone` and `KeptStringsFiltered` characterise it |
| ResultNormalizer.TruthyStrings | client.py:79 | defines the filter `t for t in texts if t` front to back, independently of `KeptStrings`; `KeptStringsFiltered` proves the two agree |
| ResultNormalizer.JoinTexts | client.py:79 | defines `"\n".join(...).strip()` with its TypeError; `JoinTextsStripped` states the result is stripped |
| ResultNormalizer.Extracted | client.py:66-81 | defines the extracted text, empty unless the content field is a list; `ExtractedRaises` states when it raises |
| ResultNormalizer.ExtractedRaises | client.py:66-81 | extraction raises only TypeError, and exactly when the content field is a list with a truthy fragment that is not a string |
| ResultNormalizer.Normalize | client.py:50-90 | defines the whole rendering; `ToolResultToStr` is proved equal to it, and `RaisesExactly`, `ExtractionWins`, `JsonFallback` and `ObjectOutcomes` characterise it |
| ResultNormalizer.ExtractTexts | client.py:68-78 | the loop over the content parts appends each part's fragment, in order |
| ResultNormalizer.ToolResultToStr | client.py:50-90 | the method returns exactly the specified rendering, or raises the specified exception |
| ResultNormalizer.PassThroughAndLastResort | client.py:50-90 | a string result is returned unchanged; an object with no mapping view, or an empty one, gives its own `str` |
| ResultNormalizer.ContentPrecedence | client.py:66 | the content field is the first truthy one of `content`, `outputs` and `data` |
| ResultNormalizer.FragmentsAppend | client.py:68-78 | the fragments of a concatenation of parts are the concatenation of their fragments, so the parts are read in order |
| ResultNormalizer.FragmentsOfOne | client.py:69-78 | each part contributes at most one fragment, its own |
| ResultNormalizer.KeptStringsNone | client.py:79 | `join` raises exactly when some fragment is truthy and not a string |
| ResultNormalizer.KeptStringsFiltered | client.py:79 | the strings that reach `join` are exactly the truthy string fragments, in order (`TruthyStrings`), so all are non-empty and there are no more of them than fragments |
| ResultNormalizer.JoinTextsStripped | client.py:79 | the joined text neither starts nor ends with whitespace |
| ResultNormalizer.RaisesExactly | client.py:50-90 | the only exception is TypeError, raised exactly when a non-empty mapping has a list content field with a truthy non-string fragment |
| ResultNormalizer.ExtractionWins | client.py:80-81 | non-empty extracted text is returned whole, ahead of the JSON fallback |
| ResultNormalizer.JsonFallback | client.py:83-90 | with nothing extracted, the result is a prefix of the JSON text of at most 3000 characters (all of it when short enough), or the object's `str` when serialisation fails |
| ResultNormalizer.ObjectOutcomes | client.py:55-90 | an object's result is its `str`, a non-empty extraction, or a prefix of the JSON text of at most 3000 characters; only the last is capped |
| ResultNormalizer.SingleTextBlock | client.py:66-81 | one MCP text block gives its text, however long, when the text has no surrounding whitespace |
| ResultNormalizer.TwoTextBlocks | client.py:66-81 | two MCP text blocks give their texts joined by one newline |
| ResultNormalizer.JoinOneText | client.py:79 | one non-blank text without surrounding whitespace joins to itself |
| ResultNormalizer.JoinTwoKept | client.py:79 | two texts join with a newline between them |
| SessionBootstrap.TryStrategies | client.py:112-123 | defines the fallback loop's outcome: result, sessions registered and operations called; `FallbackOrder` characterises it |
| SessionBootstrap.Acquire | client.py:96-123 | defines the bootstrap's outcome from the client's state; `OpenWeatherSession` is proved equal to it, and `ExistingSessionFirst`, `CreatePreferred`, `NoSessionExactly` and `ResultIsRegistered` characterise it |
| SessionBootstrap.Client.constructor | client.py:96 | a new client holds the given sessions and operations and has an empty call trace |
| SessionBootstrap.Client.CreateSession | client.py:108-109 | `create_session(name)` registers and returns a session of that name, and records the call |
| SessionBootstrap.Client.Invoke | client.py:113-117 | a connect-like operation registers the sessions it opens, and records the call |
| SessionBootstrap.OpenWeatherSession | client.py:96-123 | the method's result, the client's new sessions and its call trace are exactly what `Acquire` specifies for the client's old state |
| SessionBootstrap.TryEach | client.py:112-123 | the loop over the connect-like operations, on a client with no session, returns, registers and calls exactly what `TryStrategies` specifies |
| SessionBootstrap.ExistingSessionFirst | client.py:102-105 | an existing session is returned first, with nothing created or called |
| SessionBootstrap.CreatePreferred | client.py:107-109 | with no session, `create_session("weather")` is the only call made and its session is returned |
| SessionBootstrap.FirstOpening | client.py:112-121 | the index found is the first strategy that opens a session, or the end of the list |
| SessionBootstrap.FallbackOrder | client.py:112-123 | the fallback calls exactly the present strategies, in order, up to and including the first that opens a session, and returns that strategy's first session; otherwise it calls all of them and raises |
| SessionBootstrap.NoSessionExactly | client.py:96-123 | the bootstrap fails exactly when there is no session, no `create_session` and no operation that registers a session, and the failure is the RuntimeError of line 123 |
| SessionBootstrap.ResultIsRegistered | client.py:96-123 | a returned session is held by the client afterwards |
| ToolCatalog.Listing | client.py:133-139 | defines the value `tools` holds after the probe loop, or the exception the chosen operation raises; `FirstListerUsed` states which operation decides it |
| ToolCatalog.Field | client.py:148-150 | defines `t.get(k)` for a dictionary and `getattr(t, k, None)` for anything else; `NamePrecedence` uses it to state the name's precedence |
| ToolCatalog.Elements | client.py:146 | defines what `for t in tools` iterates over, or `None` where Python raises TypeError |
| ToolCatalog.NameOf | client.py:147-150 | defines the name shown for one tool; `NamePrecedence` states the precedence |
| ToolCatalog.LineFrom | client.py:141-153 | defines the line built from a listing value; `NamesInOrder`, `MissingListingFallback` and `NamelessListingFallback` characterise it |
| ToolCatalog.ToolsText | client.py:129-153 | defines `list_tools_text`'s line or exception; `ListToolsText` is proved equal to it and `RaisesExactly` states when it raises |
| ToolCatalog.FirstPresent | client.py:134-136 | the operation chosen is one the session has, taken from the probe list |
| ToolCatalog.Chars | client.py:146 | iterating over a string yields its characters, one per step, in order |
| ToolCatalog.Names | client.py:145-151 | each tool gets one name, in listing order |
| ToolCatalog.ToolListLine | client.py:182-185 | the help line always starts with `Tools: `, whatever the listing does |
| ToolCatalog.ListToolsText | client.py:129-153 | the probe loop and the names loop return exactly the specified line or exception |
| ToolCatalog.FirstListerUsed | client.py:133-139 | the first listing operation the session has is the one used; later ones make no difference |
| ToolCatalog.MissingListingFallback | client.py:141-142 | no listing operation, or a falsy listing, gives exactly `Tools: get_alerts, ping` |
| ToolCatalog.NamelessListingFallback | client.py:152-153 | a listing whose names are all falsy also gives exactly the fallback line |
| ToolCatalog.NoneKept | client.py:152 | when every name is falsy, none is kept |
| ToolCatalog.NamePrecedence | client.py:147-150 | a tool's name is its `name`, else its `tool`, else `str` of the tool |
| ToolCatalog.DropEmpty | client.py:152 | what is kept holds no empty string and is no longer than the input |
| ToolCatalog.DropEmptySnoc | client.py:152 | the filter keeps order: one more name adds at most that name at the end |
| ToolCatalog.KeptNames | client.py:152 | when all names are strings, the filter keeps the non-empty ones in order |
| ToolCatalog.NamesInOrder | client.py:141-153 | with string names, the line lists the non-empty names in listing order, separated by `, `, or the default names when there are none |
| ToolCatalog.RaisesExactly | client.py:129-153 | `list_tools_text` raises exactly when the listing raises, when a truthy listing cannot be iterated, or when a truthy name is not a string |
| Dispatcher.MatchDirect | client.py:221 | defines `re.match(r'^@(\w+)\.(\w+)\b(.*)$', t)` as the server, tool and tail; `MatchDirectSound` and `MatchDirectComplete` characterise it |
| Dispatcher.MatchTool | client.py:221 | defines the part of that pattern after the dot; `MatchToolSound` and `MatchToolComplete` characterise it |
| Dispatcher.Classify | client.py:195-236 | defines the command a console line selects; `ClassifyTrimmed`, `KeywordsFirst`, `DirectCallLine` and `OtherwiseChat` characterise it |
| Dispatcher.MatchToolSound | client.py:221 | what follows the dot is matched as a word, then a tail with no newline that does not continue the word, then at most one final newline |
| Dispatcher.MatchToolComplete | client.py:221 | every text of that shape is matched, with exactly those parts |
| Dispatcher.ServerSplit | client.py:221 | the server is the word before the dot; the tool and the tail come only from what follows the dot |
| Dispatcher.MatchDirectSound | client.py:221 | a matched line is `@`, a word, `.`, a word and a tail that does not continue it |
| Dispatcher.MatchDirectComplete | client.py:221 | every line of that shape is matched, with exactly those parts |
| Dispatcher.ServerIgnored | client.py:221-224 | lines that differ only in the server name match alike, with the same tool and tail |
| Dispatcher.ClassifyTrimmed | client.py:195 | a line and its stripped form are classified alike |
| Dispatcher.KeywordsFirst | client.py:198-218 | exit/quit, clear and help are recognised case-insensitively, each exactly when the stripped line is that word; a line that matches the pattern is a direct call |
| Dispatcher.OtherwiseChat | client.py:233-236 | a line that is no keyword and does not match the pattern goes to the agent, stripped |
| Dispatcher.DirectCallLine | client.py:221-224 | an `@server.tool tail` line is a direct call of that tool with the arguments parsed from the tail |
| Dispatcher.BlankLineIsChat | client.py:195-236 | a blank line goes to the agent as the empty text |
| Dispatcher.PingLine | client.py:221-224 | `@weather.ping` calls `ping` with no arguments |
| Dispatcher.NoPairs | client.py:31-44 | an empty tail carries no arguments |
| Weather.ToBool | weather.py:27-32 | defines `_to_bool`; `ToBoolOfStr` states its round trip with `str` |
| Weather.IntOf | weather.py:36 | defines `int(v)` for the values an argument can hold, `None` where it raises, including a text of more than 4300 digits |
| Weather.ToInt | weather.py:34-38 | defines `_to_int`; `ToIntRange`, `ToIntOfDecimal`, `ToIntOfLongNumeral` and `ToIntPositive` characterise it |
| Weather.Clamp | weather.py:36 | the count lies in [1, MAX_ITEMS] and is unchanged when already there |
| Weather.ToIntRange | weather.py:34-38 | a convertible value gives a count in [1, MAX_ITEMS], unchanged when already there; anything else gives the default, unclamped |
| Weather.ToIntOfDecimal | weather.py:34-38 | the decimal text of an integer of at most 4300 digits gives that integer, clamped |
| Weather.ToIntOfLongNumeral | weather.py:34-38 | a numeral of more than 4300 digits makes `int()` raise, so the default is returned, unclamped |
| Weather.ToIntPositive | weather.py:90 | with the default 5, the count is always between 1 and MAX_ITEMS |
| Weather.ToBoolOfStr | weather.py:27-32 | a boolean printed by `str` reads back as itself |
| Weather.Properties | weather.py:41 | defines `feature.get("properties", {})`, raising AttributeError where `.get` is missing |
| Weather.Truncate | weather.py:44-45 | defines the cut of a long area text; `TruncateBounds` characterises it |
| Weather.AreaText | weather.py:43-45 | defines the area shown, or the exception `len`, slicing or `+` raises; `BriefAlertRaises` states the exception kinds |
| Weather.EndsText | weather.py:46 | defines the end time shown; `EndsPrecedence` states the precedence |
| Weather.ExpiresTail | weather.py:47 | defines the ` (until ...)` tail, empty when the end time is not asked for; `BriefAlertExpires` states that it is only appended |
| Weather.BriefAlert | weather.py:40-48 | defines `_brief_alert`; `BriefAlertExpires`, `BriefAlertDefaults`, `BriefAlertRaises` and `BriefLineNotEmpty` characterise it |
| Weather.TruncateBounds | weather.py:44-45 | an area text is at most 120 characters and unchanged exactly when it already fits; otherwise it is the first 117 characters and an ellipsis |
| Weather.EndsPrecedence | weather.py:46 | the end time shown is `ends`, else `expires`, else `N/A` |
| Weather.BriefAlertExpires | weather.py:40-48 | the brief line starts with a bullet; asking for the end time only appends ` (until ...)`, and does not change whether the call raises |
| Weather.BriefAlertDefaults | weather.py:42-43 | each key defaults on its own, with or without the end time: an absent event shows `• ? — ` at the start of the line, an absent area shows `?` after the dash and the line cannot raise, and with both absent the line is `• ? — ?` and the tail |
| Weather.BriefAlertRaises | weather.py:40-48 | `_brief_alert` raises exactly when the feature or its properties are not dictionaries, or the area has no usable length; the exception is AttributeError for a missing `.get`, KeyError for slicing a long dictionary area, else TypeError |
| Weather.AlertLines | weather.py:53-58 | the verbose format has exactly five lines |
| Weather.FormatAlert | weather.py:51-59 | defines `format_alert`; `FormatAlertLines` and `FormatAlertDefaults` characterise it |
| Weather.Labelled | weather.py:54-58 | defines one line of `format_alert`: its heading, then the property or that line's default; `FormatAlertDefaults` characterises it |
| Weather.FormatAlertLines | weather.py:51-59 | when no field holds a newline, the verbose text splits back into its five labelled lines |
| Weather.FormatAlertDefaults | weather.py:54-58 | each line starts with its heading, and a missing key shows that line's default text |
| Weather.BriefAlerts | weather.py:94 | the brief lines match the features one for one, and the list raises exactly when some feature's brief line does |
| Weather.Ping | weather.py:101-103 | the reply is the fixed pong text |
| Weather.EchoResource | weather.py:106-107 | the echo is the prefix followed by the message, whole |
| Weather.NoDataMessage | weather.py:76-77 | no answer, or one without `features`, gives the fetch-failure message |
| Weather.NoActiveMessage | weather.py:78-80 | a falsy `features` gives the no-alerts message |
| Weather.EventOf | weather.py:85 | defines the event text the filter reads, `(... or "")`, raising where it is not a string |
| Weather.Selected | weather.py:85 | defines the filter condition: the event can be read and, lower-cased, contains the filter text; `FilterKeeps` states that the filter keeps exactly these features |
| Weather.Filter | weather.py:83-85 | defines the filter comprehension with the first exception propagating; `FilterRaises` and `FilterKeeps` characterise it |
| Weather.NoMatchFor | weather.py:87 | defines the filter-miss message; `FilterMissMessage` states when it is given |
| Weather.ListAlerts | weather.py:89-98 | defines limit, format, join and cap; `ListAlertsLines` and `ListAlertsBounded` characterise it |
| Weather.GetAlerts | weather.py:73-98 | defines `get_alerts` once the request has answered; `NoDataMessage`, `NoActiveMessage`, `AnswerBounded` and `FilterMissMessage` characterise it |
| Weather.FilterRaises | weather.py:85 | the filter raises exactly when some feature's event cannot be read |
| Weather.FilterKeeps | weather.py:83-85 | otherwise the filter keeps, in their original order, exactly the features whose lower-cased event contains the filter text |
| Weather.ListAlertsLines | weather.py:89-98 | the answer is the brief lines of the first min(n, count) features, with at least one line, joined by newlines and cut to MAX_CHARS; the `No matching alerts.` fallback is never used |
| Weather.BriefLineNotEmpty | weather.py:48 | a brief line is never empty |
| Weather.JoinNotEmpty | weather.py:95 | lines whose first is non-empty join to a non-empty text |
| Weather.AnswerBounded | weather.py:76-98 | every answer fits in MAX_CHARS characters, except the filter-miss message |
| Weather.ListAlertsBounded | weather.py:98 | the listing answer fits in MAX_CHARS characters |
| Weather.FilterMissMessage | weather.py:86-87 | a filter that keeps nothing gives its message, quoting the filter as given |
| Weather.AreaCodeNormal | weather.py:73 | the state code put in the request is upper-case and has no surrounding whitespace |
| Weather.AreaCode | weather.py:73 | defines `(state or "").upper().strip()`; `AreaCodeNormal` characterises it |
| Weather.EchoInverse | weather.py:106-107 | two echoes are equal exactly when their messages are |
| PyValues.Or | client.py:66 | `a or b` is truthy exactly when a or b is |
| PyText.TrimIdempotent | client.py:195 | stripping twice is stripping once |
| PyText.SplitJoin | weather.py:51-59 | splitting a joined text gives back its pieces when none holds the separator; this is the step `Weather.FormatAlertLines` uses to split `format_alert`'s newline join back into its lines |
| PyText.JoinSplit | weather.py:51-59 | joining the pieces of a split gives back the text: the converse of `PyText.SplitJoin`, so the join used by `format_alert` loses nothing |
| PyText.Take | client.py:85 | the slice `[:n]` is a prefix of at most n characters, and the whole text when it is short enough |
| PyText.Contains | weather.py:85 | `q in s` holds exactly when q occurs in s at some index |
| PyText.PyIntOfDecimalString | client.py:40 | `int(str(n)) == n` for every integer `str` can write, that is of at most 4300 digits |
| PyText.PyIntOfLongNumeral | client.py:40 | `int()` refuses the decimal text of an integer of more than 4300 digits, the default `sys.int_max_str_digits` |
| PyText.PyInt | client.py:40 | defines `int(s)` on a text: stripped of the whitespace `int()` skips (`isspace` without U+001C to U+001F), an optional sign, digits with single underscores between them, at most 4300 digits; `None` where it raises ValueError |
| PyText.SeparatorNotSkipped | client.py:40 | `int()` raises on a text that starts with U+001C, although `strip()` would drop that character: the two whitespace sets differ |
| PyText.StrFits | weather.py:36 | defines when `str(n)` succeeds: at most 4300 digits |

## Left out

- The HTTP request to the National Weather Service (weather.py:16-24) is left out. `GetAlerts` takes its outcome as a parameter, with `None` for a failed request. The URL and the headers are not modelled, beyond the state code that goes into the URL.
- The FastMCP server registration and the MCP transport are left out, as is `session.call_tool` (client.py:226-230). They are network I/O.
- `run_memory_chat` is modelled only as its per-line decision (`Dispatcher.Classify`). Left out:
  - the console loop, `input` and `print`;
  - the `help` text;
  - the LLM agent (`agent.run`, `clear_conversation_history`);
  - `load_dotenv`, logging and the config file.
- Async and coroutines: awaiting is assumed to give the operation's value.
- Reflection is replaced by explicit data:
  - `hasattr` and `getattr` on the MCP client become the `Client` fields `hasCreate` and `ops`;
  - on the session they become the `listers` map;
  - `model_dump()`, `dict()` and `__dict__` become one optional mapping view.
- SessionBootstrap.Client.CreateSession: `create_session` and the connect-like operations never raise, and `create_session` always returns a session. An exception from them would simply propagate.
- SessionBootstrap: the `sessions` dictionary is modelled by its values in insertion order. A falsy session object (client.py:104, 120) is not modelled: sessions are always truthy.
- ResultNormalizer: `json.dumps` is a parameter (`None` where it raises). So is `str` of lists, dictionaries and objects.
- ToolCatalog: iterating a dictionary or an object is a parameter, as is `str` of lists, dictionaries and objects.
- Floats, bytes and other Python types are not among the modelled values.
- PyText: `\w`, `lower()` and `upper()` are ASCII only, and `int()` accepts ASCII digits only. Python also accepts other Unicode letters and digits. `strip()` and `\s` use the full `isspace` set; `int()` skips the same set except U+001C to U+001F, as CPython does.
- PyText.PyInt: the 4300-digit limit is the default `sys.int_max_str_digits` of Python 3.11 and later, with leading zeros counted as digits. A program that changes the limit is not modelled, and Python 3.10 and earlier have no limit.
- PyValues.Str: `str()` of an integer always succeeds in the model. From Python 3.11 on it raises ValueError for more than 4300 digits (`PyText.StrFits`). That raise is not modelled, which affects the callers below.
- ResultNormalizer.Fragment: `str(part["text"])` and `str(t)` (client.py:74, 78) on an integer of more than 4300 digits would raise ValueError out of `tool_result_to_str`; the model appends its digits.
- ResultNormalizer.RaisesExactly: names TypeError as the only exception, so it leaves out that ValueError of `str()`.
- ToolCatalog.NameOf: `str(t)` (client.py:150) on a tool that is an integer of more than 4300 digits would raise, and the caller (client.py:182-185) would print the fallback line; the model lists the digits.
- Weather.BriefAlert: an f-string of an event or end time that is an integer of more than 4300 digits would raise ValueError; so would `Weather.Labelled` for such a property and `Weather.GetAlerts` for such a filter. The model prints the digits.
- Weather.GetAlerts: a truthy `features` value that is not a list raises TypeError in the model. In Python the outcome depends on its type (a dictionary iterates its keys, a string its characters).
- Weather.AreaText: a dictionary area longer than 120 raises KeyError, as `area[:117]` does from Python 3.12 on, where a slice is looked up as a key; Python 3.11 and earlier raise TypeError there instead. A long list raises TypeError (`list + str`) on every version. The exception messages are not modelled.
