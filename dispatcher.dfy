/**
  The decision chain that `run_memory_chat` applies to each console line
  (client.py:195-231, 236), lifted out as a pure function from the line to the
  command it selects.
*/
module Dispatcher {
  import opened Wrappers
  import opened PyText
  import opened PyValues
  import opened ArgParser

  /** What a console line asks for. */
  datatype Command =
    | Exit
    | Clear
    | Help
      /** `@server.tool key=value ...`: a tool call on the open session; `server` is not used to route it. */
    | DirectCall(server: string, tool: string, args: map<string, Value>)
      /** Anything else, handed to the agent. */
    | Chat(text: string)

  /**
    `re.match(r'^@(\w+)\.(\w+)\b(.*)$', t)` (client.py:221): the server, the
    tool and the tail. The server run is maximal, since a `.` must follow it.
  */
  function MatchDirect(t: string): Option<(string, string, string)> {
    if |t| == 0 || t[0] != '@' then None
    else
      var k := RunEnd(t, 1, IsWordChar);
      if k == 1 || k == |t| || t[k] != '.' then None
      else
        match MatchTool(t[k + 1..])
        case Some((tool, tail)) => Some((t[1..k], tool, tail))
        case None => None
  }

  /**
    The part of the pattern after the dot, `(\w+)\b(.*)$`: the tool run is
    maximal, so `\b` holds after it; `.` stops at a newline, and `$` also
    matches just before a final newline.
  */
  function MatchTool(r: string): Option<(string, string)> {
    var e := RunEnd(r, 0, IsWordChar);
    if e == 0 then None
    else
      var n := IndexOf(r, '\n', e);
      if n < |r| - 1 then None
      else Some((r[..e], r[e..n]))
  }

  /** The command for one console line (client.py:195-236). */
  function Classify(line: string): Command {
    var t := Strip(line);
    var low := Lower(t);
    if low == "exit" || low == "quit" then Exit
    else if low == "clear" then Clear
    else if low == "help" then Help
    else
      match MatchDirect(t)
      case Some((server, tool, tail)) => DirectCall(server, tool, ParsePairs(tail))
      case None => Chat(t)
  }

  // ---------------------------------------------------------------------------
  // The direct-call pattern
  // ---------------------------------------------------------------------------

  /** What `MatchTool` finds is a word and a tail that does not continue it, up to an optional final newline. */
  lemma MatchToolSound(r: string)
    ensures MatchTool(r).Some? ==>
      var (tool, tail) := MatchTool(r).value;
      IsWord(tool) && '\n' !in tail && (tail == [] || !IsWordChar(tail[0])) &&
      (r == tool + tail || r == tool + tail + "\n")
  {
    if MatchTool(r).Some? {
      var e := RunEnd(r, 0, IsWordChar);
      var n := IndexOf(r, '\n', e);
      var (tool, tail) := MatchTool(r).value;
      assert tool == r[..e] && tail == r[e..n];
      assert tail == [] || tail[0] == r[e];
      if n == |r| {
        assert r == r[..e] + r[e..n];
      } else {
        assert r == r[..e] + r[e..n] + [r[n]];
      }
    }
  }

  /** Every text of that shape is matched, with exactly those parts. */
  lemma MatchToolComplete(tool: string, tail: string, newline: bool)
    requires IsWord(tool) && '\n' !in tail && (tail == [] || !IsWordChar(tail[0]))
    ensures MatchTool(tool + tail + (if newline then "\n" else "")) == Some((tool, tail))
  {
    var r := tool + tail + (if newline then "\n" else "");
    var e := |tool|;
    assert r[..e] == tool && r[e..e + |tail|] == tail;
    assert forall i :: 0 <= i < e ==> r[i] == tool[i];
    assert e < |r| ==> r[e] == if tail == [] then '\n' else tail[0];
    RunEndUnique(r, 0, IsWordChar, e);
    assert forall i :: e <= i < e + |tail| ==> r[i] == tail[i - e];
    IndexOfUnique(r, '\n', e, e + |tail|);
  }

  /** The server is the word before the dot; the tool and the tail come from what follows it alone. */
  lemma ServerSplit(server: string, rest: string)
    requires IsWord(server)
    ensures MatchDirect("@" + server + "." + rest) ==
      match MatchTool(rest)
      case Some((tool, tail)) => Some((server, tool, tail))
      case None => None
  {
    var t := "@" + server + "." + rest;
    var k := 1 + |server|;
    assert t[1..k] == server && t[k] == '.' && t[k + 1..] == rest;
    assert forall i :: 1 <= i < k ==> t[i] == server[i - 1];
    RunEndUnique(t, 1, IsWordChar, k);
  }

  /** What `MatchDirect` finds is `@`, a word, `.`, a word and a tail that does not continue the word. */
  lemma MatchDirectSound(t: string)
    ensures MatchDirect(t).Some? ==>
      var (server, tool, tail) := MatchDirect(t).value;
      IsWord(server) && IsWord(tool) && '\n' !in tail && (tail == [] || !IsWordChar(tail[0])) &&
      (t == "@" + server + "." + tool + tail || t == "@" + server + "." + tool + tail + "\n")
  {
    if MatchDirect(t).Some? {
      var k := RunEnd(t, 1, IsWordChar);
      var server := t[1..k];
      var r := t[k + 1..];
      var (tool, tail) := MatchTool(r).value;
      assert MatchDirect(t).value == (server, tool, tail);
      assert IsWord(server) by {
        forall i | 0 <= i < |server| ensures IsWordChar(server[i]) {
          assert server[i] == t[i + 1];
        }
      }
      assert t == "@" + server + "." + r;
      MatchToolSound(r);
      if r == tool + tail {
        Reassociate("@" + server + ".", tool, tail, "");
        assert tool + tail + "" == tool + tail;
      } else {
        Reassociate("@" + server + ".", tool, tail, "\n");
      }
    }
  }

  /** Every line of that shape is matched, with exactly those parts. */
  lemma MatchDirectComplete(server: string, tool: string, tail: string, newline: bool)
    requires IsWord(server) && IsWord(tool) && '\n' !in tail && (tail == [] || !IsWordChar(tail[0]))
    ensures var t := "@" + server + "." + tool + tail + (if newline then "\n" else "");
      MatchDirect(t) == Some((server, tool, tail))
  {
    var nl := if newline then "\n" else "";
    var rest := tool + tail + nl;
    Reassociate("@" + server + ".", tool, tail, nl);
    ServerSplit(server, rest);
    MatchToolComplete(tool, tail, newline);
  }

  /**
    Regrouping a concatenation of four texts. Kept as a lemma: the proofs
    above that need it stay within the verifier's budget only when this
    step is taken on its own.
  */
  lemma Reassociate(a: string, b: string, c: string, d: string)
    ensures a + b + c + d == a + (b + c + d)
  {
  }

  /** The server name does not affect the match: lines that differ only in it match alike, with the same tool and tail. */
  lemma ServerIgnored(s1: string, s2: string, rest: string)
    requires IsWord(s1) && IsWord(s2)
    ensures MatchDirect("@" + s1 + "." + rest).Some? <==> MatchDirect("@" + s2 + "." + rest).Some?
    ensures MatchDirect("@" + s1 + "." + rest).Some? ==>
      var m1 := MatchDirect("@" + s1 + "." + rest).value;
      var m2 := MatchDirect("@" + s2 + "." + rest).value;
      m1.0 == s1 && m2.0 == s2 && m1.1 == m2.1 && m1.2 == m2.2
  {
    ServerSplit(s1, rest);
    ServerSplit(s2, rest);
  }

  // ---------------------------------------------------------------------------
  // The classifier
  // ---------------------------------------------------------------------------

  /** The line is trimmed before anything else looks at it. */
  lemma ClassifyTrimmed(line: string)
    ensures Classify(line) == Classify(Strip(line))
  {
    TrimIdempotent(line, IsSpace);
  }

  /**
    The keywords are told apart case-insensitively, before the direct-call
    pattern; a line that matches the pattern starts with `@`, so no line is
    both a keyword and a direct call.
  */
  lemma KeywordsFirst(line: string)
    ensures var low := Lower(Strip(line));
      (Classify(line) == Exit <==> low == "exit" || low == "quit") &&
      (Classify(line) == Clear <==> low == "clear") &&
      (Classify(line) == Help <==> low == "help")
    ensures MatchDirect(Strip(line)).Some? ==> Classify(line).DirectCall?
  {
    var t := Strip(line);
    if MatchDirect(t).Some? {
      var low := Lower(t);
      assert low[0] == '@';
      assert low != "exit" && low != "quit" && low != "clear" && low != "help" by {
        assert "exit"[0] != '@' && "quit"[0] != '@' && "clear"[0] != '@' && "help"[0] != '@';
      }
    }
  }

  /** A line that is not a keyword and does not match the pattern goes to the agent, trimmed. */
  lemma OtherwiseChat(line: string)
    requires var low := Lower(Strip(line)); low != "exit" && low != "quit" && low != "clear" && low != "help"
    requires MatchDirect(Strip(line)).None?
    ensures Classify(line) == Chat(Strip(line))
  {
  }

  /** A trimmed `@server.tool tail` line is a direct call whose arguments are parsed from the tail. */
  lemma DirectCallLine(server: string, tool: string, tail: string)
    requires IsWord(server) && IsWord(tool) && '\n' !in tail && (tail == [] || !IsWordChar(tail[0]))
    requires tail == [] || !IsSpace(tail[|tail| - 1])
    ensures Classify("@" + server + "." + tool + tail) == DirectCall(server, tool, ParsePairs(tail))
  {
    var t := "@" + server + "." + tool + tail;
    MatchDirectComplete(server, tool, tail, false);
    assert t + "" == t;
    StripDirectLine(server, tool, tail);
    KeywordsFirst(t);
  }

  /** Such a line has no surrounding whitespace. */
  lemma StripDirectLine(server: string, tool: string, tail: string)
    requires IsWord(tool) && (tail == [] || !IsSpace(tail[|tail| - 1]))
    ensures var t := "@" + server + "." + tool + tail; Strip(t) == t
  {
    var t := "@" + server + "." + tool + tail;
    assert t[|t| - 1] == if tail == [] then tool[|tool| - 1] else tail[|tail| - 1];
    TrimKeeps(t, IsSpace);
  }

  /** An empty line, or one of only whitespace, goes to the agent as the empty text. */
  lemma BlankLineIsChat(line: string)
    requires forall i :: 0 <= i < |line| ==> IsSpace(line[i])
    ensures Classify(line) == Chat("")
  {
    assert Strip(line) == [] by {
      assert TrimStart(line, IsSpace) == [];
    }
    assert Lower([]) == [] && MatchDirect([]) == None;
  }

  /** `@weather.ping` calls the tool `ping` with no arguments. */
  lemma PingLine()
    ensures Classify("@weather.ping") == DirectCall("weather", "ping", map[])
  {
    PingLineOf("weather", "ping", "@weather.ping");
  }

  lemma PingLineOf(server: string, tool: string, line: string)
    requires server == "weather" && tool == "ping" && line == "@weather.ping"
    ensures Classify(line) == DirectCall(server, tool, map[])
  {
    assert Classify(line) == DirectCall(server, tool, ParsePairs("")) by {
      assert IsWord(server) && IsWord(tool);
      assert "@" + server + "." + tool + "" == line;
      DirectCallLine(server, tool, "");
    }
    NoPairs();
  }

  /** An empty tail carries no arguments. */
  lemma NoPairs()
    ensures ParsePairs("") == map[]
  {
  }
}
