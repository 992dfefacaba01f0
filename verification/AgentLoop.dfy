/** The agent's `proxy` as it runs: two loops taking turns on two connections.
    What it does to whole streams is a run of the agent's steps. */
module AgentLoop {
  import opened Protocol
  import opened Agent
  import opened Streams
  import opened Strings

  /** A session in `proxy`: what is still to be read from either side, what was
      passed on, `session_started`, and which of the two loops runs. */
  datatype Session = Session(
    up: seq<Message>, down: seq<Message>, toWs: seq<Message>, toClient: seq<Message>, started: bool, downwards: bool)

  function PassUp(s: Session): Session
    requires s.up != []
  {
    s.(up := s.up[1..], toWs := s.toWs + [s.up[0]], started := true, downwards := s.up[0].EndsClientTurn())
  }

  function PassDown(s: Session): Session
    requires s.down != []
  {
    s.(down := s.down[1..], toClient := s.toClient + [s.down[0]], downwards := !s.down[0].YieldsToClient())
  }

  /** Where a session ends, and whether it ends well. */
  function Relay(s: Session): (Session, bool)
    decreases |s.up| + |s.down|
  {
    if !s.downwards then
      if s.up == [] then (s, !s.started) else Relay(PassUp(s))
    else
      if s.down == [] then (s, false)
      else if s.down[0].EndsSession() then (PassDown(s), true)
      else Relay(PassDown(s))
  }

  function TurnsEnded(ms: seq<Message>): nat {
    if ms == [] then 0 else TurnsEnded(ms[..|ms| - 1]) + if ms[|ms| - 1].EndsClientTurn() then 1 else 0
  }

  function TimesYielded(ms: seq<Message>): nat {
    if ms == [] then 0 else TimesYielded(ms[..|ms| - 1]) + if ms[|ms| - 1].YieldsToClient() then 1 else 0
  }

  predicate Midway(s: Session) {
    && (forall m <- s.toClient :: !m.EndsSession())
    && TurnsEnded(s.toWs) == TimesYielded(s.toClient) + (if s.downwards then 1 else 0)
    && (s.downwards ==> s.started)
    && (!s.started ==> s.toWs == [] && s.toClient == [])
  }

  lemma OneMore(ms: seq<Message>, m: Message)
    ensures TurnsEnded(ms + [m]) == TurnsEnded(ms) + if m.EndsClientTurn() then 1 else 0
    ensures TimesYielded(ms + [m]) == TimesYielded(ms) + if m.YieldsToClient() then 1 else 0
  {
    assert (ms + [m])[..|ms + [m]| - 1] == ms;
  }

  lemma UpKeeps(s: Session)
    requires Midway(s) && !s.downwards && s.up != []
    ensures Midway(PassUp(s)) && PassUp(s).toWs + PassUp(s).up == s.toWs + s.up
  {
    OneMore(s.toWs, s.up[0]);
  }

  lemma DownKeeps(s: Session)
    requires Midway(s) && s.downwards && s.down != []
    ensures PassDown(s).toClient + PassDown(s).down == s.toClient + s.down
    ensures if s.down[0].EndsSession() then EndedWell(PassDown(s)) else Midway(PassDown(s))
  {
    OneMore(s.toClient, s.down[0]);
    assert (s.toClient + [s.down[0]])[..|s.toClient|] == s.toClient;
  }

  /** Exactly one last word, last, and one turn more ended than yielded. */
  predicate EndedWell(t: Session) {
    && t.toClient != [] && t.toClient[|t.toClient| - 1].EndsSession()
    && (forall m <- t.toClient[..|t.toClient| - 1] :: !m.EndsSession())
    && TurnsEnded(t.toWs) == TimesYielded(t.toClient) + 1
  }

  /** Both directions are passed on in order with nothing lost or repeated, and
      a session that ends well is one that never spoke or one that had its
      last word. */
  lemma {:induction false} RelayForwards(s: Session)
    requires Midway(s)
    ensures var (t, ok) := Relay(s);
            && t.toWs + t.up == s.toWs + s.up && t.toClient + t.down == s.toClient + s.down
            && (ok ==> EndedWell(t) || (!t.started && t.up == [] && t.toWs == [] && t.toClient == []))
    decreases |s.up| + |s.down|
  {
    if !s.downwards && s.up != [] {
      UpKeeps(s);
      RelayForwards(PassUp(s));
    } else if s.downwards && s.down != [] {
      DownKeeps(s);
      if !s.down[0].EndsSession() { RelayForwards(PassDown(s)); }
    }
  }

  ghost function SessionOf(client: Stream, ws: Stream, started: bool, downwards: bool): Session
    reads client, ws
  {
    Session(client.inbox, ws.inbox, ws.sent, client.sent, started, downwards)
  }

  /** `proxy`. */
  method Proxy(client: Stream, ws: Stream) returns (ok: bool)
    requires client != ws
    modifies client, ws
    ensures var (t, good) := Relay(old(SessionOf(client, ws, false, false)));
            && ok == good
            && client.inbox == t.up && client.sent == t.toClient && ws.inbox == t.down && ws.sent == t.toWs
  {
    var started := false;
    ghost var end := Relay(SessionOf(client, ws, false, false));
    while true
      invariant Relay(SessionOf(client, ws, started, false)) == end
      decreases |client.inbox| + |ws.inbox|
    {
      ghost var left := |client.inbox| + |ws.inbox|;
      // Client to WebSocket, until a response is needed.
      while true
        invariant Relay(SessionOf(client, ws, started, false)) == end
        invariant |client.inbox| + |ws.inbox| <= left
        decreases |client.inbox|
      {
        var data := client.Recv();
        if data.None? {
          return !started;
        }
        ws.Send(data.value);
        started := true;
        if data.value.EndsClientTurn() {
          break;
        }
      }
      // WebSocket to client, until the client speaks again or the session ends.
      while true
        invariant Relay(SessionOf(client, ws, started, true)) == end
        invariant |client.inbox| + |ws.inbox| < left
        decreases |ws.inbox|
      {
        var data := ws.Recv();
        if data.None? {
          return false;
        }
        client.Send(data.value);
        if data.value.EndsSession() {
          return true;
        }
        if data.value.YieldsToClient() {
          break;
        }
      }
    }
  }

  /** CLI `cid` is being served and both ends of its session are closed, with
      what they said before still waiting. */
  ghost predicate Scripted(s: State, cid: nat, w: Session) {
    && s.worker == Serving(cid, w.started, w.downwards) && cid < |s.clis| && s.ws.Conn? && s.ws.daemon.Gone?
    && !s.clis[cid].alive
    && s.clis[cid].up == w.up && s.ws.toAgent == w.down && s.ws.toDaemon == w.toWs && s.clis[cid].down == w.toClient
  }

  /** The loop is the agent's steps: whenever the two streams of a session are
      at hand, some run of agent steps passes on exactly what `proxy` does, and
      the WebSocket survives exactly if `proxy` returns without an error. */
  lemma {:induction false} LoopIsSteps(s: State, cid: nat, w: Session)
    requires Scripted(s, cid, w)
    ensures exists acts :: Passes(s, acts, cid, Relay(w))
    decreases |w.up| + |w.down|
  {
    if !w.downwards {
      if w.up == [] {
        EndsWith(s, AgentEof, cid, Relay(w));
      } else {
        var t := DoAgentUp(s).value;
        LoopIsSteps(t, cid, PassUp(w));
        GoesOn(s, AgentUp, cid, Relay(w));
      }
    } else {
      if w.down == [] {
        EndsWith(s, AgentDownFails, cid, Relay(w));
      } else if w.down[0].EndsSession() {
        EndsWith(s, AgentDown, cid, Relay(w));
      } else {
        var t := DoAgentDown(s).value;
        LoopIsSteps(t, cid, PassDown(w));
        GoesOn(s, AgentDown, cid, Relay(w));
      }
    }
  }

  ghost predicate Passes(s: State, acts: seq<Action>, cid: nat, end: (Session, bool)) {
    && Run(s, acts).Some?
    && Left(Run(s, acts).value, cid, end)
  }

  /** The agent is done with the session. */
  ghost predicate Left(t: State, cid: nat, end: (Session, bool)) {
    && t.worker.Idle? && cid < |t.clis|
    && t.clis[cid].up == end.0.up && t.clis[cid].down == end.0.toClient
    && (end.1 <==> t.ws.Conn?)
    && (end.1 ==> t.ws.toAgent == end.0.down && t.ws.toDaemon == end.0.toWs)
  }

  lemma EndsWith(s: State, a: Action, cid: nat, end: (Session, bool))
    requires Apply(s, a).Some? && Left(Apply(s, a).value, cid, end)
    ensures exists acts :: Passes(s, acts, cid, end)
  {
    assert Run(Apply(s, a).value, [a][1..]) == Apply(s, a);
    assert Passes(s, [a], cid, end);
  }

  lemma GoesOn(s: State, a: Action, cid: nat, end: (Session, bool))
    requires Apply(s, a).Some?
    requires exists acts :: Passes(Apply(s, a).value, acts, cid, end)
    ensures exists acts :: Passes(s, acts, cid, end)
  {
    var acts :| Passes(Apply(s, a).value, acts, cid, end);
    assert ([a] + acts)[1..] == acts;
    assert Passes(s, [a] + acts, cid, end);
  }

  /** What the agent reads from the client in a step, and from the WebSocket. */
  function UpRead(s: State, a: Action): seq<Message>
    requires Apply(s, a).Some?
  {
    if a.AgentUp? then [s.clis[s.worker.cid].up[0]] else []
  }

  function DownRead(s: State, a: Action): seq<Message>
    requires Apply(s, a).Some?
  {
    if a.AgentDown? then [s.ws.toAgent[0]] else []
  }

  function UpOver(s: State, acts: seq<Action>): seq<Message>
    requires Run(s, acts).Some?
    decreases |acts|
  {
    if acts == [] then [] else UpRead(s, acts[0]) + UpOver(Apply(s, acts[0]).value, acts[1..])
  }

  function DownOver(s: State, acts: seq<Action>): seq<Message>
    requires Run(s, acts).Some?
    decreases |acts|
  {
    if acts == [] then [] else DownRead(s, acts[0]) + DownOver(Apply(s, acts[0]).value, acts[1..])
  }

  /** CLI `cid` is being served all through the run. */
  predicate Serves(s: State, acts: seq<Action>, cid: nat)
    requires Run(s, acts).Some?
    decreases |acts|
  {
    && s.worker.Serving? && s.worker.cid == cid
    && (acts != [] ==> Serves(Apply(s, acts[0]).value, acts[1..], cid))
  }

  lemma {:induction false} StillServes(s: State, acts: seq<Action>, cid: nat)
    requires Run(s, acts).Some? && Serves(s, acts, cid)
    ensures Run(s, acts).value.worker.Serving? && Run(s, acts).value.worker.cid == cid
    decreases |acts|
  {
    if acts != [] { StillServes(Apply(s, acts[0]).value, acts[1..], cid); }
  }

  /** The session a state is in: what is still to come, and what was passed on. */
  function At(s: State, up: seq<Message>, down: seq<Message>, toWs: seq<Message>, toClient: seq<Message>): Session
    requires s.worker.Serving?
  {
    Session(up, down, toWs, toClient, s.worker.started, s.worker.toClient)
  }

  /** Between two reads of the agent nobody moves its loops on. */
  lemma OthersWait(s: State, a: Action)
    requires Apply(s, a).Some? && s.worker.Serving? && Apply(s, a).value.worker.Serving? && !a.AgentUp? && !a.AgentDown?
    ensures Apply(s, a).value.worker == s.worker
  {
  }

  /** A step of anybody, the session going on, is one turn of a loop or none. */
  lemma StepIsTurn(s: State, a: Action, up: seq<Message>, down: seq<Message>, toWs: seq<Message>, toClient: seq<Message>)
    requires Apply(s, a).Some? && s.worker.Serving? && Apply(s, a).value.worker.Serving?
    ensures Relay(At(s, UpRead(s, a) + up, DownRead(s, a) + down, toWs, toClient))
            == Relay(At(Apply(s, a).value, up, down, toWs + UpRead(s, a), toClient + DownRead(s, a)))
  {
    var before := At(s, UpRead(s, a) + up, DownRead(s, a) + down, toWs, toClient);
    if a.AgentUp? {
      assert before.up[1..] == up && before.down == down && toClient + [] == toClient;
      assert Relay(before) == Relay(PassUp(before));
    } else if a.AgentDown? {
      assert before.down[1..] == down && before.up == up && toWs + [] == toWs;
      assert Relay(before) == Relay(PassDown(before));
    } else {
      OthersWait(s, a);
      assert before.up == up && before.down == down && toWs + [] == toWs && toClient + [] == toClient;
    }
  }

  /** So a run is as much of the loop as was read, whatever is still to come. */
  lemma {:induction false} RunIsTurns(s: State, acts: seq<Action>, cid: nat, up: seq<Message>, down: seq<Message>, toWs: seq<Message>, toClient: seq<Message>)
    requires Run(s, acts).Some? && Serves(s, acts, cid)
    ensures Run(s, acts).value.worker.Serving?
    ensures Relay(At(s, UpOver(s, acts) + up, DownOver(s, acts) + down, toWs, toClient))
            == Relay(At(Run(s, acts).value, up, down, toWs + UpOver(s, acts), toClient + DownOver(s, acts)))
    decreases |acts|
  {
    if acts == [] {
      assert [] + up == up && [] + down == down && toWs + [] == toWs && toClient + [] == toClient;
    } else {
      var a, t, rest := acts[0], Apply(s, acts[0]).value, acts[1..];
      var u, d, x, y := UpOver(t, rest), DownOver(t, rest), UpRead(s, a), DownRead(s, a);
      RunIsTurns(t, rest, cid, up, down, toWs + x, toClient + y);
      StepIsTurn(s, a, u + up, d + down, toWs, toClient);
      Assoc(x, u, up);
      Assoc(y, d, down);
      Assoc(toWs, x, u);
      Assoc(toClient, y, d);
    }
  }

  /** From the start of a session. */
  lemma RunFromStart(s: State, acts: seq<Action>, cid: nat, up: seq<Message>, down: seq<Message>)
    requires s.worker == Serving(cid, false, false) && Run(s, acts).Some? && Serves(s, acts, cid)
    ensures Run(s, acts).value.worker.Serving?
    ensures Relay(Session(UpOver(s, acts) + up, DownOver(s, acts) + down, [], [], false, false))
            == Relay(At(Run(s, acts).value, up, down, UpOver(s, acts), DownOver(s, acts)))
  {
    RunIsTurns(s, acts, cid, up, down, [], []);
    assert [] + UpOver(s, acts) == UpOver(s, acts) && [] + DownOver(s, acts) == DownOver(s, acts);
  }

  /** With `up` and `down` on the streams, and more behind, the loop passes on
      just these, leaves what is behind unread, and ends well or not. */
  predicate LoopPasses(up: seq<Message>, down: seq<Message>, more: seq<Message>, further: seq<Message>, ok: bool) {
    var (t, good) := Relay(Session(up + more, down + further, [], [], false, false));
    t.up == more && t.down == further && t.toWs == up && t.toClient == down && good == ok
  }

  lemma LastWordIsLoop(s: State, acts: seq<Action>, cid: nat, more: seq<Message>, further: seq<Message>)
    requires s.worker == Serving(cid, false, false) && Run(s, acts).Some? && Serves(s, acts, cid)
    requires var t := Run(s, acts).value; Apply(t, AgentDown).Some? && Apply(t, AgentDown).value.worker.Idle?
    ensures LoopPasses(UpOver(s, acts), DownOver(s, acts) + DownRead(Run(s, acts).value, AgentDown), more, further, true)
  {
    var read := DownRead(Run(s, acts).value, AgentDown);
    RunFromStart(s, acts, cid, more, read + further);
    Assoc(DownOver(s, acts), read, further);
    assert (read + further)[1..] == further;
  }

  lemma EndOfReadingIsLoop(s: State, acts: seq<Action>, cid: nat, more: seq<Message>, further: seq<Message>)
    requires s.worker == Serving(cid, false, false) && Run(s, acts).Some? && Serves(s, acts, cid)
    requires Run(s, acts).value.worker.Serving? && if Run(s, acts).value.worker.toClient then further == [] else more == []
    ensures var w := Run(s, acts).value.worker; LoopPasses(UpOver(s, acts), DownOver(s, acts), more, further, !w.toClient && !w.started)
  {
    RunFromStart(s, acts, cid, more, further);
  }

  /** Every session is a run of the loop, however its steps are interleaved with
      those of its two ends, of other CLIs, and with failures. One that ends by
      a last word is what `proxy` does to any streams that begin with what was
      read, whether their ends are open or closed. One that ends because there
      is no more to read is what it does to streams that end there. The
      WebSocket is kept exactly where `proxy` returns without an error. */
  lemma SessionsAreLoops(s: State, acts: seq<Action>, last: Action, cid: nat, more: seq<Message>, further: seq<Message>)
    requires s.worker == Serving(cid, false, false) && Run(s, acts).Some? && Serves(s, acts, cid)
    requires Apply(Run(s, acts).value, last).Some? && Apply(Run(s, acts).value, last).value.worker.Idle?
    ensures var t := Run(s, acts).value;
            var up, down, ws := UpOver(s, acts), DownOver(s, acts) + DownRead(t, last), Apply(t, last).value.ws;
            match last
            case AgentDown => ws.Conn? && LoopPasses(up, down, more, further, true)
            case AgentEof => ws == (if t.worker.started then Absent else t.ws) && LoopPasses(up, down, [], further, !t.worker.started)
            case AgentDownFails => ws == Absent && (t.ws.toAgent == [] ==> LoopPasses(up, down, more, [], false))
            case AgentUpFails => ws == Absent
            case _ => false
  {
    var t := Run(s, acts).value;
    StillServes(s, acts, cid);
    assert DownOver(s, acts) + [] == DownOver(s, acts);
    match last
    case AgentDown => LastWordIsLoop(s, acts, cid, more, further);
    case AgentEof => EndOfReadingIsLoop(s, acts, cid, [], further);
    case AgentDownFails => EndOfReadingIsLoop(s, acts, cid, more, []);
    case AgentUpFails =>
    case _ => OnlyAgentEnds(t, last);
  }

  /** Nobody but the agent ends a session. */
  lemma OnlyAgentEnds(s: State, a: Action)
    requires Apply(s, a).Some? && s.worker.Serving? && Apply(s, a).value.worker.Idle?
    ensures a.AgentDown? || a.AgentEof? || a.AgentDownFails? || a.AgentUpFails?
  {
  }
}
