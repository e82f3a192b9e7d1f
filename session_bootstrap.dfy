/**
  `open_weather_session` (client.py:96-123): an ordered fallback over what the
  client object offers. An existing session is reused; else `create_session`
  is called; else each connect-like operation the client has is called in a
  fixed order until a session appears; else the bootstrap fails.
*/
module SessionBootstrap {
  import opened Wrappers

  /** An open session with a tool server. */
  datatype Session = Session(name: string)

  /** The connect-like operations tried in turn (client.py:112). */
  datatype Strategy = Connect | ConnectAll | OpenAllSessions | EnsureSessions | Initialize

  const Strategies: seq<Strategy> := [Connect, ConnectAll, OpenAllSessions, EnsureSessions, Initialize]

  /** An operation invoked on the client, as recorded in its trace. */
  datatype Call = Created(name: string) | Invoked(strategy: Strategy)

  /** The server whose session the client asks for (client.py:110). */
  const ServerName: string := "weather"

  const NoSessionMessage: string := "No MCP sessions available and unable to create one."

  /**
    The MCP client as `open_weather_session` sees it: the values of its
    `sessions` dictionary in insertion order, whether it has `create_session`,
    the connect-like operations it has with the sessions each one registers,
    and the trace of the operations called on it.
  */
  class Client {
    var sessions: seq<Session>
    const hasCreate: bool
    const ops: map<Strategy, seq<Session>>
    var calls: seq<Call>

    constructor (sessions: seq<Session>, hasCreate: bool, ops: map<Strategy, seq<Session>>)
      ensures this.sessions == sessions && this.hasCreate == hasCreate && this.ops == ops && calls == []
    {
      this.sessions := sessions;
      this.hasCreate := hasCreate;
      this.ops := ops;
      calls := [];
    }

    /** `await client.create_session(name)`: opens a session and registers it. */
    method CreateSession(name: string) returns (s: Session)
      requires hasCreate
      modifies this
      ensures s == Session(name)
      ensures sessions == old(sessions) + [s] && calls == old(calls) + [Created(name)]
    {
      s := Session(name);
      sessions := sessions + [s];
      calls := calls + [Created(name)];
    }

    /** Calls the connect-like operation `st`, which registers the sessions it opens. */
    method Invoke(st: Strategy)
      requires st in ops
      modifies this
      ensures sessions == old(sessions) + ops[st] && calls == old(calls) + [Invoked(st)]
    {
      sessions := sessions + ops[st];
      calls := calls + [Invoked(st)];
    }
  }

  /** The outcome of a bootstrap: its result, the sessions it registered and the operations it called. */
  datatype Acquisition = Acquisition(result: Result<Session>, added: seq<Session>, calls: seq<Call>)

  /** The loop at client.py:112-121 over the strategies `todo`, with `current` the sessions so far. */
  function TryStrategies(current: seq<Session>, ops: map<Strategy, seq<Session>>, todo: seq<Strategy>): Acquisition
    decreases |todo|
  {
    if todo == [] then Acquisition(Raised(RuntimeError(NoSessionMessage)), [], [])
    else if todo[0] !in ops then TryStrategies(current, ops, todo[1..])
    else
      var now := current + ops[todo[0]];
      if now != [] then Acquisition(Ok(now[0]), ops[todo[0]], [Invoked(todo[0])])
      else
        var rest := TryStrategies(now, ops, todo[1..]);
        Acquisition(rest.result, ops[todo[0]] + rest.added, [Invoked(todo[0])] + rest.calls)
  }

  /** `open_weather_session` on a client in the given state. */
  function Acquire(sessions: seq<Session>, hasCreate: bool, ops: map<Strategy, seq<Session>>): Acquisition {
    if sessions != [] then Acquisition(Ok(sessions[0]), [], [])
    else if hasCreate then Acquisition(Ok(Session(ServerName)), [Session(ServerName)], [Created(ServerName)])
    else TryStrategies(sessions, ops, Strategies)
  }

  function Prepend(pre: seq<Call>, a: Acquisition): Acquisition {
    Acquisition(a.result, a.added, pre + a.calls)
  }

  /** `open_weather_session(client)` (client.py:96-123). */
  method OpenWeatherSession(c: Client) returns (r: Result<Session>)
    modifies c
    ensures var a := Acquire(old(c.sessions), c.hasCreate, c.ops);
      r == a.result && c.sessions == old(c.sessions) + a.added && c.calls == old(c.calls) + a.calls
  {
    if c.sessions != [] {
      return Ok(c.sessions[0]);
    }
    if c.hasCreate {
      var s := c.CreateSession(ServerName);
      return Ok(s);
    }
    r := TryEach(c, Strategies);
  }

  /** The loop at client.py:112-123 over the strategies `todo`, on a client that holds no session. */
  method TryEach(c: Client, todo: seq<Strategy>) returns (r: Result<Session>)
    requires c.sessions == []
    modifies c
    ensures var a := TryStrategies([], c.ops, todo);
      r == a.result && c.sessions == a.added && c.calls == old(c.calls) + a.calls
  {
    ghost var pre: seq<Call> := [];
    ghost var goal := TryStrategies([], c.ops, todo);
    assert todo[0..] == todo;
    var i := 0;
    while i < |todo|
      invariant 0 <= i <= |todo|
      invariant c.sessions == [] && c.calls == old(c.calls) + pre
      invariant goal == Prepend(pre, TryStrategies([], c.ops, todo[i..]))
    {
      var st := todo[i];
      ghost var rest := TryStrategies([], c.ops, todo[i + 1..]);
      StrategyStep(c.ops, todo[i..]);
      assert todo[i..][1..] == todo[i + 1..];
      if st in c.ops {
        c.Invoke(st);
        if c.sessions != [] {
          return Ok(c.sessions[0]);
        }
        assert goal == Prepend(pre + [Invoked(st)], rest) by {
          PrependTwice(pre, [Invoked(st)], rest);
        }
        pre := pre + [Invoked(st)];
      }
      i := i + 1;
    }
    return Raised(RuntimeError(NoSessionMessage));
  }

  /** One turn of the loop at client.py:112-121, starting with no session. */
  lemma StrategyStep(ops: map<Strategy, seq<Session>>, todo: seq<Strategy>)
    requires todo != []
    ensures TryStrategies([], ops, todo) ==
      if todo[0] !in ops then TryStrategies([], ops, todo[1..])
      else if ops[todo[0]] != [] then Acquisition(Ok(ops[todo[0]][0]), ops[todo[0]], [Invoked(todo[0])])
      else Prepend([Invoked(todo[0])], TryStrategies([], ops, todo[1..]))
  {
    if todo[0] in ops && ops[todo[0]] == [] {
      assert [] + ops[todo[0]] == [];
    }
  }

  lemma PrependTwice(p: seq<Call>, q: seq<Call>, a: Acquisition)
    ensures Prepend(p, Prepend(q, a)) == Prepend(p + q, a)
  {
    assert p + (q + a.calls) == (p + q) + a.calls;
  }

  // ---------------------------------------------------------------------------
  // Properties
  // ---------------------------------------------------------------------------

  /** An existing session is returned first, and nothing is created or called. */
  lemma ExistingSessionFirst(sessions: seq<Session>, hasCreate: bool, ops: map<Strategy, seq<Session>>)
    requires sessions != []
    ensures Acquire(sessions, hasCreate, ops) == Acquisition(Ok(sessions[0]), [], [])
  {
  }

  /** With no session, `create_session` is preferred: it is the only call made, and its session is returned. */
  lemma CreatePreferred(ops: map<Strategy, seq<Session>>)
    ensures Acquire([], true, ops) == Acquisition(Ok(Session(ServerName)), [Session(ServerName)], [Created(ServerName)])
  {
  }

  /** The strategies of `todo` the client has, as calls, in order. */
  function Present(ops: map<Strategy, seq<Session>>, todo: seq<Strategy>): seq<Call>
    decreases |todo|
  {
    if todo == [] then []
    else (if todo[0] in ops then [Invoked(todo[0])] else []) + Present(ops, todo[1..])
  }

  /** The strategy `st` is present and registers at least one session. */
  predicate Opens(ops: map<Strategy, seq<Session>>, st: Strategy) {
    st in ops && ops[st] != []
  }

  /** Index in `todo` of the first strategy that opens a session, `|todo|` when none does. */
  function FirstOpening(ops: map<Strategy, seq<Session>>, todo: seq<Strategy>): (k: nat)
    ensures k <= |todo|
    ensures forall j :: 0 <= j < k ==> !Opens(ops, todo[j])
    ensures k < |todo| ==> Opens(ops, todo[k])
    decreases |todo|
  {
    if todo == [] then 0
    else if Opens(ops, todo[0]) then 0
    else 1 + FirstOpening(ops, todo[1..])
  }

  /**
    Starting with no session, the fallback calls exactly the present
    strategies, in order, up to and including the first that opens a session,
    and returns that strategy's first session; when none opens one, it calls
    every present strategy and fails with the error of client.py:123.
  */
  lemma {:induction false} FallbackOrder(ops: map<Strategy, seq<Session>>, todo: seq<Strategy>)
    ensures var k := FirstOpening(ops, todo);
      TryStrategies([], ops, todo) ==
        if k < |todo| then Acquisition(Ok(ops[todo[k]][0]), ops[todo[k]], Present(ops, todo[..k + 1]))
        else Acquisition(Raised(RuntimeError(NoSessionMessage)), [], Present(ops, todo))
    decreases |todo|
  {
    if todo != [] {
      var k := FirstOpening(ops, todo);
      FallbackOrder(ops, todo[1..]);
      if !Opens(ops, todo[0]) {
        if k < |todo| {
          assert todo[..k + 1][1..] == todo[1..][..k];
          assert todo[1..][k - 1] == todo[k];
          assert todo[..k + 1][0] == todo[0];
        }
      } else {
        assert todo[..1] == [todo[0]];
      }
    }
  }

  /**
    The bootstrap fails exactly when there is no session, no `create_session`,
    and no connect-like operation registers a session; the error is the
    RuntimeError of client.py:123.
  */
  lemma NoSessionExactly(sessions: seq<Session>, hasCreate: bool, ops: map<Strategy, seq<Session>>)
    ensures Acquire(sessions, hasCreate, ops).result.Raised? <==>
      sessions == [] && !hasCreate && forall st :: st in ops ==> ops[st] == []
    ensures Acquire(sessions, hasCreate, ops).result.Raised? ==>
      Acquire(sessions, hasCreate, ops).result.error == RuntimeError(NoSessionMessage)
  {
    if sessions == [] && !hasCreate {
      FallbackOrder(ops, Strategies);
      var k := FirstOpening(ops, Strategies);
      if k == |Strategies| {
        forall st | st in ops ensures ops[st] == [] {
          assert st == Strategies[IndexOfStrategy(st)];
        }
      }
    }
  }

  function IndexOfStrategy(st: Strategy): (i: nat)
    ensures i < |Strategies| && Strategies[i] == st
  {
    match st
    case Connect => 0
    case ConnectAll => 1
    case OpenAllSessions => 2
    case EnsureSessions => 3
    case Initialize => 4
  }

  /** A session returned is one the client holds afterwards. */
  lemma ResultIsRegistered(sessions: seq<Session>, hasCreate: bool, ops: map<Strategy, seq<Session>>)
    ensures var a := Acquire(sessions, hasCreate, ops);
      a.result.Ok? ==> a.result.value in sessions + a.added
  {
    if sessions == [] && !hasCreate {
      FallbackOrder(ops, Strategies);
    }
  }
}
