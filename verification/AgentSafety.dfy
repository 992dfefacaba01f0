/** What every run of the agent keeps: turn-taking, expected messages only, and
    a WebSocket that is clean whenever no session is being served. */
module AgentSafety {
  import opened Protocol
  import opened Parties
  import opened Agent

  /** Nothing in flight either way and the daemon at its request loop, or on
      the way back to it; or the peer is gone and the next use will fail. */
  predicate Clean(ws: Ws) {
    ws.Conn? ==> ws.toAgent == [] && (ws.daemon.Gone? || (ws.toDaemon == [] && (ws.daemon.Loop? || ws.daemon.Releasing?)))
  }

  /** The client owes the agent a message that ends its turn. */
  predicate OwesUp(v: Client, up: seq<Message>) {
    || (v.Speaks() && AllFiles(up) && (v.Streaming? || up == []) && (v.Opening? ==> Starts(v.first)))
    || (v.Waits() && up != [] && AllFiles(up[..|up| - 1]) && up[|up| - 1].EndsClientTurn())
  }

  /** The side the agent listens to is the side that will speak. */
  predicate Turn(cli: Cli, toAgent: seq<Message>, toClient: bool) {
    if toClient then cli.up == [] && Follow(cli.client, cli.down).Waits()
    else toAgent == [] && OwesUp(Follow(cli.client, cli.down), cli.up)
  }

  predicate SessionOk(cli: Cli, w: Worker, ws: Ws) {
    && w.Serving?
    && ws.Conn?
    && Turn(cli, ws.toAgent, w.toClient)
    && !Follow(cli.client, cli.down + ws.toAgent).Confused?
    && (!ws.daemon.Gone? ==> Joint(Follow(cli.client, cli.down + ws.toAgent), ws.toDaemon + cli.up, ws.daemon))
    && (!w.started ==> !w.toClient && Clean(ws))
  }

  /** Exactly one message that ends a session, and it came last. */
  predicate Heard(cli: Cli) {
    if cli.client.Ended? then
      && cli.got != []
      && cli.got[|cli.got| - 1] == cli.client.last
      && cli.client.last.EndsSession()
      && (forall m <- cli.got[..|cli.got| - 1] :: !m.EndsSession())
    else forall m <- cli.got :: !m.EndsSession()
  }

  predicate CliOk(cli: Cli) {
    && Heard(cli)
    && !cli.client.Confused?
    && (cli.phase.Setting? || cli.phase.Finished? ==> cli.client.Ended?)
    && match cli.socket
       case Unused => (cli.phase.Fresh? || cli.phase.Getting? || cli.phase.Ready?) && cli.up == [] && cli.down == [] && cli.got == []
       case Queued =>
         && cli.phase.Talking? && cli.down == []
         && (|| (cli.client.Opening? && Starts(cli.client.first) && cli.up == [])
             || (|cli.up| == 1 && Starts(cli.up[0]) && cli.client == AfterFirst(cli.up[0])))
       case Served => cli.phase.Talking?
       case Closed(lost) =>
         && (cli.phase.Talking? || cli.phase.Setting? || cli.phase.Finished?)
         && !Follow(cli.client, cli.down).Confused?
         && (!lost && cli.alive ==> Follow(cli.client, cli.down).Ended?)
  }

  ghost predicate QueueOk(s: State) {
    && (forall i | 0 <= i < |s.queue| && s.queue[i].Proxy? ::
          s.queue[i].cid < |s.clis| && s.clis[s.queue[i].cid].socket == Queued)
    && (forall i, j | 0 <= i < j < |s.queue| && s.queue[i].Proxy? :: s.queue[i] != s.queue[j])
    && (forall i | 0 <= i < |s.queue| && s.queue[i].Rpc? :: s.queue[i].cid < |s.clis|)
    && (forall c: nat | c < |s.clis| && s.clis[c].socket == Queued :: Proxy(c) in s.queue)
    && (forall c: nat | c < |s.clis| && s.clis[c].alive && (s.clis[c].phase.Getting? || s.clis[c].phase.Setting?) :: Rpc(c) in s.queue)
  }

  ghost predicate WorkerOk(s: State) {
    && (forall c: nat | c < |s.clis| && s.clis[c].socket == Served :: s.worker.Serving? && s.worker.cid == c)
    && (match s.worker
        case Idle => Clean(s.ws)
        case Serving(cid, _, _) =>
          cid < |s.clis| && s.clis[cid].socket == Served && SessionOk(s.clis[cid], s.worker, s.ws))
  }

  ghost predicate Inv(s: State) {
    && (forall c: nat | c < |s.clis| :: CliOk(s.clis[c]))
    && QueueOk(s)
    && WorkerOk(s)
  }

  lemma OneBehind(up: seq<Message>, m: Message)
    ensures var more := up + [m]; more != [] && more[..|more| - 1] == up && more[|more| - 1] == m
    ensures AllFiles(up) && m.FileData? ==> AllFiles(up + [m])
  {
  }

  /** A client in its turn goes on owing until it has sent the last word of it. */
  lemma OwesUpSend(c: Client, up: seq<Message>, mv: Move)
    requires ClientSend(c, mv).Some? && OwesUp(c, up)
    ensures var (c', sent) := ClientSend(c, mv).value; OwesUp(c', up + sent)
  {
    var (c', sent) := ClientSend(c, mv).value;
    if |sent| == 1 {
      assert sent == [sent[0]];
      OneBehind(up, sent[0]);
    } else {
      assert up + sent == up;
    }
  }

  /** A client that can send has read everything and holds the turn. */
  lemma SpeakersHaveRead(cli: Cli, w: Worker, ws: Ws, mv: Move)
    requires SessionOk(cli, w, ws) && ClientSend(cli.client, mv).Some?
    ensures cli.down == [] && !w.toClient && ws.toAgent == []
  {
    assert cli.client.Speaks();
    assert cli.down != [] ==> Follow(cli.client, cli.down).Confused?;
  }

  lemma JointSend(c: Client, up: seq<Message>, wire: seq<Message>, d: Daemon, mv: Move)
    requires ClientSend(c, mv).Some? && Joint(c, wire + up, d)
    ensures var (c', sent) := ClientSend(c, mv).value; Joint(c', wire + (up + sent), d)
  {
    var (c', sent) := ClientSend(c, mv).value;
    assert wire + (up + sent) == (wire + up) + sent;
    JointClientSend(c, [], wire + up, d, mv);
  }

  /** A CLI's own sends and reads keep the session consistent. */
  lemma SessionSend(cli: Cli, w: Worker, ws: Ws, mv: Move)
    requires SessionOk(cli, w, ws) && ClientSend(cli.client, mv).Some?
    ensures var (c, sent) := ClientSend(cli.client, mv).value; SessionOk(cli.(client := c, up := cli.up + sent), w, ws)
  {
    var (c, sent) := ClientSend(cli.client, mv).value;
    var cli' := cli.(client := c, up := cli.up + sent);
    assert cli.down == [] && !w.toClient && ws.toAgent == [] by { SpeakersHaveRead(cli, w, ws, mv); }
    assert cli.down + ws.toAgent == [] && cli'.down + ws.toAgent == [];
    assert Follow(cli.client, []) == cli.client && Follow(c, []) == c;
    assert OwesUp(c, cli'.up) by { OwesUpSend(cli.client, cli.up, mv); }
    assert !ws.daemon.Gone? ==> Joint(c, ws.toDaemon + cli'.up, ws.daemon) by {
      if !ws.daemon.Gone? { JointSend(cli.client, cli.up, ws.toDaemon, ws.daemon, mv); }
    }
  }

  lemma SessionRecv(cli: Cli, w: Worker, ws: Ws)
    requires SessionOk(cli, w, ws) && cli.down != []
    ensures SessionOk(cli.(client := ClientRecv(cli.client, cli.down[0]), down := cli.down[1..], got := cli.got + [cli.down[0]]), w, ws)
    ensures Expects(cli.client, cli.down[0])
  {
    assert (cli.down + ws.toAgent)[1..] == cli.down[1..] + ws.toAgent;
  }

  /** Reading an expected message keeps the history in order. */
  lemma HeardRecv(cli: Cli, m: Message)
    requires Heard(cli) && Expects(cli.client, m)
    ensures Heard(cli.(client := ClientRecv(cli.client, m), got := cli.got + [m]))
  {
    EndersEnd(cli.client, m);
    assert !cli.client.Ended?;
    assert (cli.got + [m])[..|cli.got + [m]| - 1] == cli.got;
  }

  /** The agent passing a message up. */
  lemma SessionUp(cli: Cli, w: Worker, ws: Ws)
    requires SessionOk(cli, w, ws) && !w.toClient && cli.up != []
    ensures SessionOk(cli.(up := cli.up[1..]), w.(started := true, toClient := cli.up[0].EndsClientTurn()),
                      ws.(toDaemon := ws.toDaemon + [cli.up[0]]))
  {
    assert (ws.toDaemon + [cli.up[0]]) + cli.up[1..] == ws.toDaemon + cli.up;
    assert cli.up[0] in cli.up;
    if |cli.up| > 1 {
      assert cli.up[0] in cli.up[..|cli.up| - 1];
      assert cli.up[1..][..|cli.up[1..]| - 1] == cli.up[..|cli.up| - 1][1..];
    }
  }

  /** The agent passing a message down; a last word leaves the WebSocket clean. */
  lemma SessionDown(cli: Cli, w: Worker, ws: Ws)
    requires SessionOk(cli, w, ws) && w.toClient && ws.toAgent != []
    ensures var m := ws.toAgent[0];
            var cli' := cli.(down := cli.down + [m]);
            var ws' := ws.(toAgent := ws.toAgent[1..]);
            if m.EndsSession() then Clean(ws') && Follow(cli'.client, cli'.down).Ended? && ws'.toAgent == []
            else SessionOk(cli', w.(toClient := !m.YieldsToClient()), ws')
  {
    var m, rest := ws.toAgent[0], ws.toAgent[1..];
    var v := Follow(cli.client, cli.down);
    assert cli.down + ws.toAgent == (cli.down + [m]) + rest;
    FollowAppend(cli.client, cli.down, [m]);
    FollowAppend(cli.client, cli.down + [m], rest);
    assert Follow(v, [m]) == if Expects(v, m) then ClientRecv(v, m) else Confused by {
      if Expects(v, m) { assert Follow(ClientRecv(v, m), [m][1..]) == ClientRecv(v, m); }
    }
    if !Expects(v, m) { FollowConfused(rest); assert false; }
    EndersEnd(v, m);
    var v' := ClientRecv(v, m);
    if m.EndsSession() || m.YieldsToClient() {
      assert rest == [];
    }
  }

  /** The daemon reading and speaking. */
  lemma SessionDaemonRead(cli: Cli, w: Worker, ws: Ws)
    requires SessionOk(cli, w, ws) && Listens(ws.daemon) && ws.toDaemon != []
    ensures SessionOk(cli, w, ws.(daemon := DaemonRecv(ws.daemon, ws.toDaemon[0]), toDaemon := ws.toDaemon[1..]))
  {
    var v := Follow(cli.client, cli.down + ws.toAgent);
    var wire := ws.toDaemon + cli.up;
    assert wire[0] == ws.toDaemon[0] && wire[1..] == ws.toDaemon[1..] + cli.up;
    JointDaemonRecv(v, wire, ws.daemon);
  }

  lemma SessionDaemonSpeak(cli: Cli, w: Worker, ws: Ws, m: Message, outputs: nat)
    requires SessionOk(cli, w, ws) && DaemonSay(ws.daemon, m, outputs).Some?
    ensures SessionOk(cli, w, ws.(daemon := DaemonSay(ws.daemon, m, outputs).value, toAgent := ws.toAgent + [m]))
  {
    var v := Follow(cli.client, cli.down + ws.toAgent);
    assert !w.toClient ==> cli.down + ws.toAgent == cli.down;
    JointDaemonSay(v, ws.toDaemon + cli.up, ws.daemon, m, outputs);
    assert cli.down + (ws.toAgent + [m]) == (cli.down + ws.toAgent) + [m];
    FollowAppend(cli.client, cli.down + ws.toAgent, [m]);
    assert Follow(v, [m]) == ClientRecv(v, m) by {
      assert Follow(ClientRecv(v, m), [m][1..]) == ClientRecv(v, m);
    }
  }

  lemma InitInv(s: State)
    requires Init(s)
    ensures Inv(s)
  {
  }

  /** Changing one CLI that is not being served leaves the rest of the picture. */
  lemma OneCliChanges(s: State, t: State, cid: nat)
    requires Inv(s) && cid < |s.clis| && s.clis[cid].socket != Served
    requires |t.clis| == |s.clis| && t.clis == s.clis[cid := t.clis[cid]] && t.worker == s.worker && t.ws == s.ws
    requires CliOk(t.clis[cid]) && t.clis[cid].socket != Served
    ensures (forall c: nat | c < |t.clis| :: CliOk(t.clis[c])) && WorkerOk(t)
  {
  }

  /** A CLI acting on its own connection leaves backlog and phases alone. */
  lemma CliActs(s: State, t: State, cid: nat)
    requires Inv(s) && cid < |s.clis|
    requires |t.clis| == |s.clis| && t == s.(clis := s.clis[cid := t.clis[cid]])
    requires t.clis[cid].socket == s.clis[cid].socket
    requires t.clis[cid].phase == s.clis[cid].phase && (t.clis[cid].alive ==> s.clis[cid].alive)
    requires CliOk(t.clis[cid])
    requires s.clis[cid].socket.Served? ==> SessionOk(t.clis[cid], s.worker, s.ws)
    ensures Inv(t)
  {
  }

  lemma InvCliStart(s: State, cid: nat)
    requires Inv(s) && DoCliStart(s, cid).Some?
    ensures Inv(DoCliStart(s, cid).value)
  {
    var t := DoCliStart(s, cid).value;
    assert CliOk(s.clis[cid]);
    OneCliChanges(s, t, cid);
    RpcJoins(s, t, cid, [Bare]);
  }

  /** Entries already waiting keep their place when others join the backlog. */
  lemma QueueGrows(s: State, more: seq<Entry>)
    ensures forall e <- s.queue :: e in s.queue + more
    ensures forall i | 0 <= i < |s.queue| :: (s.queue + more)[i] == s.queue[i]
  {
  }

  /** A connection not queued before is queued once, behind whatever waits. */
  lemma ProxyJoins(s: State, t: State, cid: nat, before: seq<Entry>)
    requires QueueOk(s) && cid < |s.clis| && s.clis[cid].socket.Unused? && !s.clis[cid].phase.Getting? && !s.clis[cid].phase.Setting?
    requires |t.clis| == |s.clis| && t.clis == s.clis[cid := t.clis[cid]]
    requires t.clis[cid].socket.Queued? && t.clis[cid].phase.Talking?
    requires (before == [] || before == [Bare]) && t.queue == s.queue + before + [Proxy(cid)]
    ensures QueueOk(t)
  {
    assert Proxy(cid) !in s.queue;
    assert t.queue[|t.queue| - 1] == Proxy(cid);
    QueueGrows(s, before + [Proxy(cid)]);
    assert t.queue == s.queue + (before + [Proxy(cid)]);
    assert forall i | |s.queue| <= i < |t.queue| - 1 :: t.queue[i] == Bare;
  }

  /** A call joins behind whatever waits. */
  lemma RpcJoins(s: State, t: State, cid: nat, before: seq<Entry>)
    requires QueueOk(s) && cid < |s.clis|
    requires |t.clis| == |s.clis| && t.clis == s.clis[cid := t.clis[cid]] && t.clis[cid].socket == s.clis[cid].socket
    requires (before == [] || before == [Bare]) && t.queue == s.queue + before + [Rpc(cid)]
    ensures QueueOk(t)
  {
    assert t.queue[|t.queue| - 1] == Rpc(cid);
    QueueGrows(s, before + [Rpc(cid)]);
    assert t.queue == s.queue + (before + [Rpc(cid)]);
    assert forall i | |s.queue| <= i < |t.queue| - 1 :: t.queue[i] == Bare;
  }

  lemma InvCliOpen(s: State, cid: nat, first: Message)
    requires Inv(s) && DoCliOpen(s, cid, first).Some?
    ensures Inv(DoCliOpen(s, cid, first).value)
  {
    var t := DoCliOpen(s, cid, first).value;
    assert CliOk(s.clis[cid]);
    OneCliChanges(s, t, cid);
    ProxyJoins(s, t, cid, if s.clis[cid].phase.Fresh? then [Bare] else []);
  }

  lemma InvCliSend(s: State, cid: nat, mv: Move)
    requires Inv(s) && DoCliSend(s, cid, mv).Some?
    ensures Inv(DoCliSend(s, cid, mv).value)
  {
    var t := DoCliSend(s, cid, mv).value;
    assert CliOk(s.clis[cid]);
    if s.clis[cid].socket.Served? { SessionSend(s.clis[cid], s.worker, s.ws, mv); }
    CliActs(s, t, cid);
  }

  lemma InvCliRecv(s: State, cid: nat)
    requires Inv(s) && DoCliRecv(s, cid).Some?
    ensures Inv(DoCliRecv(s, cid).value)
  {
    var cli := s.clis[cid];
    assert CliOk(cli);
    if cli.socket.Served? { SessionRecv(cli, s.worker, s.ws); }
    HeardRecv(cli, cli.down[0]);
    CliActs(s, DoCliRecv(s, cid).value, cid);
  }

  lemma InvCliFinish(s: State, cid: nat)
    requires Inv(s) && DoCliFinish(s, cid).Some?
    ensures Inv(DoCliFinish(s, cid).value)
  {
    var t := DoCliFinish(s, cid).value;
    EndedIsClosed(s, cid);
    assert CliOk(s.clis[cid]);
    OneCliChanges(s, t, cid);
    if s.clis[cid].client.last.BuildFinished? { RpcJoins(s, t, cid, []); }
  }

  /** A client that has its last word is no longer being served. */
  lemma EndedIsClosed(s: State, cid: nat)
    requires Inv(s) && cid < |s.clis| && s.clis[cid].client.Ended?
    ensures s.clis[cid].socket.Closed? || s.clis[cid].socket.Unused?
  {
  }

  lemma InvCliGone(s: State, cid: nat)
    requires Inv(s) && IsAlive(s, cid)
    ensures Inv(s.(clis := s.clis[cid := s.clis[cid].(alive := false)]))
  {
    CliActs(s, s.(clis := s.clis[cid := s.clis[cid].(alive := false)]), cid);
  }

  /** Taking the head off the backlog loses nobody else. */
  lemma QueuePops(s: State)
    requires s.queue != []
    ensures forall e <- s.queue :: e == s.queue[0] || e in s.queue[1..]
    ensures forall i | 0 <= i < |s.queue[1..]| :: s.queue[1..][i] == s.queue[i + 1]
  {
  }

  lemma InvAgentRpc(s: State, sent: bool)
    requires Inv(s) && DoAgentRpc(s, sent).Some?
    ensures Inv(DoAgentRpc(s, sent).value)
  {
    QueuePops(s);
    var t := DoAgentRpc(s, sent).value;
    var cid := s.queue[0].cid;
    assert CliOk(s.clis[cid]);
    assert t.clis[cid] == s.clis[cid].(phase := t.clis[cid].phase);
    assert CliOk(t.clis[cid]);
    forall c: nat | c < |s.clis| ensures CliOk(t.clis[c]) && t.clis[c].socket == s.clis[c].socket {
      assert CliOk(s.clis[c]);
    }
    assert WorkerOk(t);
    assert QueueOk(t);
  }

  lemma InvAgentBare(s: State)
    requires Inv(s) && DoAgentBare(s).Some?
    ensures Inv(DoAgentBare(s).value)
  {
    QueuePops(s);
  }

  /** A queued connection meets a clean WebSocket. */
  lemma AcceptStarts(cli: Cli, ws: Ws)
    requires CliOk(cli) && cli.socket.Queued? && ws.Conn? && Clean(ws)
    ensures forall cid: nat :: SessionOk(cli.(socket := Served), Serving(cid, false, false), ws)
  {
    assert cli.down + ws.toAgent == [];
    assert !ws.daemon.Gone? ==> ws.toDaemon + cli.up == cli.up;
  }

  lemma InvAgentAccept(s: State)
    requires Inv(s) && DoAgentAccept(s).Some?
    ensures Inv(DoAgentAccept(s).value)
  {
    var t := DoAgentAccept(s).value;
    var cid := s.queue[0].cid;
    QueuePops(s);
    AcceptStarts(s.clis[cid], t.ws);
    assert WorkerOk(t);
    assert QueueOk(t);
  }

  lemma InvConnectFails(s: State)
    requires Inv(s) && DoConnectFails(s).Some?
    ensures Inv(DoConnectFails(s).value)
  {
    QueuePops(s);
    assert CliOk(s.clis[s.queue[0].cid]);
    OneCliChanges(s, DoConnectFails(s).value, s.queue[0].cid);
  }

  lemma InvTeardown(s: State)
    requires Inv(s) && s.worker.Serving?
    ensures Inv(Teardown(s, s.worker.cid))
  {
    var cli := s.clis[s.worker.cid];
    FollowAppend(cli.client, cli.down, s.ws.toAgent);
    if Follow(cli.client, cli.down).Confused? { FollowConfused(s.ws.toAgent); }
  }

  lemma InvAgentEof(s: State)
    requires Inv(s) && DoAgentEof(s).Some?
    ensures Inv(DoAgentEof(s).value)
  {
    InvTeardown(s);
  }

  lemma InvAgentUp(s: State)
    requires Inv(s) && DoAgentUp(s).Some?
    ensures Inv(DoAgentUp(s).value)
  {
    SessionUp(s.clis[s.worker.cid], s.worker, s.ws);
  }

  lemma InvAgentDown(s: State)
    requires Inv(s) && DoAgentDown(s).Some?
    ensures Inv(DoAgentDown(s).value)
  {
    SessionDown(s.clis[s.worker.cid], s.worker, s.ws);
  }

  lemma InvDaemon(s: State, a: Action)
    requires Inv(s) && Apply(s, a).Some?
    requires a.DaemonRead? || a.DaemonSpeak? || a.DaemonRelease?
    ensures Inv(Apply(s, a).value)
  {
    match s.worker
    case Idle =>
    case Serving(cid, _, _) =>
      match a
      case DaemonRead => SessionDaemonRead(s.clis[cid], s.worker, s.ws);
      case DaemonSpeak(m, outputs) => SessionDaemonSpeak(s.clis[cid], s.worker, s.ws, m, outputs);
      case DaemonRelease =>
  }

  lemma InvWsLost(s: State, a: Action)
    requires Inv(s) && Apply(s, a).Some?
    requires a.WsDrops? || a.DaemonFails?
    ensures Inv(Apply(s, a).value)
  {
    if s.worker.Serving? {
      var cli := s.clis[s.worker.cid];
      FollowAppend(cli.client, cli.down, s.ws.toAgent);
      if Follow(cli.client, cli.down).Confused? { FollowConfused(s.ws.toAgent); }
      assert cli.down + [] == cli.down;
    }
  }

  lemma InvStep(s: State, a: Action)
    requires Inv(s) && Apply(s, a).Some?
    ensures Inv(Apply(s, a).value)
  {
    match a
    case CliStart(cid) => InvCliStart(s, cid);
    case CliOpen(cid, first) => InvCliOpen(s, cid, first);
    case CliSend(cid, mv) => InvCliSend(s, cid, mv);
    case CliRecv(cid) => InvCliRecv(s, cid);
    case CliFinish(cid) => InvCliFinish(s, cid);
    case CliEof(cid) => InvCliGone(s, cid);
    case CliDies(cid) => InvCliGone(s, cid);
    case AgentBare => InvAgentBare(s);
    case AgentRpc(sent) => InvAgentRpc(s, sent);
    case AgentAccept => InvAgentAccept(s);
    case ConnectFails => InvConnectFails(s);
    case AgentUp => InvAgentUp(s);
    case AgentUpFails => InvTeardown(s);
    case AgentEof => InvAgentEof(s);
    case AgentDown => InvAgentDown(s);
    case AgentDownFails => InvTeardown(s);
    case DaemonRead => InvDaemon(s, a);
    case DaemonSpeak(_, _) => InvDaemon(s, a);
    case DaemonRelease => InvDaemon(s, a);
    case WsDrops => InvWsLost(s, a);
    case DaemonFails => InvWsLost(s, a);
  }

  /** A CLI's first connection is a bare one, which the agent comes to first. */
  lemma BareFirst(s: State, a: Action)
    requires Apply(s, a).Some? && (a.CliStart? || a.CliOpen?) && s.clis[a.cid].phase.Fresh?
    ensures var t := Apply(s, a).value;
            |t.queue| == |s.queue| + 2 && t.queue[..|s.queue|] == s.queue && t.queue[|s.queue|] == Bare
            && t.queue[|s.queue| + 1] == (if a.CliStart? then Rpc(a.cid) else Proxy(a.cid))
  {
  }

  /** After a build a CLI is finished only when the agent has answered its second
      call; after a busy answer or a tip it makes none. */
  lemma RecordedBeforeFinished(s: State, a: Action, cid: nat)
    requires Apply(s, a).Some? && cid < |s.clis| && cid < |Apply(s, a).value.clis|
    requires !s.clis[cid].phase.Finished? && Apply(s, a).value.clis[cid].phase.Finished?
    ensures s.clis[cid].phase.Setting? ==> a.AgentRpc? && s.queue[0] == Rpc(cid)
    ensures s.clis[cid].phase.Talking? ==> a == CliFinish(cid) && s.clis[cid].client.Ended? && !s.clis[cid].client.last.BuildFinished?
    ensures s.clis[cid].phase.Setting? || s.clis[cid].phase.Talking?
  {
  }

  /** Exactly when the WebSocket is given up: nothing can be read or written any
      more in the middle of a session, a client hangs up in the middle of one, or
      an answer cannot be delivered. It is opened anew for the next session only. */
  lemma DroppedExactlyWhen(s: State, a: Action)
    requires Apply(s, a).Some?
    ensures s.ws.Conn? ==>
              (Apply(s, a).value.ws.Absent? <==>
                 || a.AgentUpFails? || a.AgentDownFails? || (a.AgentEof? && s.worker.started)
                 || (a.AgentRpc? && a.sent && !s.clis[s.queue[0].cid].alive))
    ensures s.ws.Absent? && Apply(s, a).value.ws.Conn? ==> a.AgentAccept? && Apply(s, a).value.ws == Conn([], [], Loop)
  {
  }

  lemma {:induction false} InvRun(s: State, acts: seq<Action>)
    requires Inv(s) && Run(s, acts).Some?
    ensures Inv(Run(s, acts).value)
    decreases |acts|
  {
    if acts != [] {
      InvStep(s, acts[0]);
      InvRun(Apply(s, acts[0]).value, acts[1..]);
    }
  }

  /** Between sessions the stored WebSocket is absent, clean, or dead, after
      every run whatever failed in it. */
  lemma StoredWebSocketIsClean(s: State, acts: seq<Action>)
    requires Init(s) && Run(s, acts).Some? && Run(s, acts).value.worker.Idle?
    ensures Clean(Run(s, acts).value.ws)
  {
    InitInv(s);
    InvRun(s, acts);
  }

  /** In a state that keeps the invariant nobody is confused, or about to be. */
  lemma ClientNotConfused(s: State, cid: nat)
    requires Inv(s) && cid < |s.clis|
    ensures var cli := s.clis[cid];
            !cli.client.Confused? && (cli.down != [] ==> Expects(cli.client, cli.down[0]))
  {
    var cli := s.clis[cid];
    assert CliOk(cli);
    if cli.socket.Served? { FollowAppend(cli.client, cli.down, s.ws.toAgent); FollowConfused(s.ws.toAgent); }
  }

  lemma DaemonNotConfused(s: State)
    requires Inv(s) && s.ws.Conn?
    ensures !s.ws.daemon.Unexpected?
  {
    if s.worker.Serving? { assert SessionOk(s.clis[s.worker.cid], s.worker, s.ws); }
  }

  /** Neither end ever takes its unexpected-message branch, nor the client the
      catch-all that drops a message while a build runs. */
  lemma NobodyIsConfused(s: State, acts: seq<Action>)
    requires Init(s) && Run(s, acts).Some?
    ensures var t := Run(s, acts).value;
            && (t.ws.Conn? ==> !t.ws.daemon.Unexpected?)
            && forall cid: nat | cid < |t.clis| ::
                 !t.clis[cid].client.Confused? && (t.clis[cid].down != [] ==> Expects(t.clis[cid].client, t.clis[cid].down[0]))
  {
    InitInv(s);
    InvRun(s, acts);
    var t := Run(s, acts).value;
    if t.ws.Conn? { DaemonNotConfused(t); }
    forall cid: nat | cid < |t.clis| ensures
      !t.clis[cid].client.Confused? && (t.clis[cid].down != [] ==> Expects(t.clis[cid].client, t.clis[cid].down[0]))
    {
      ClientNotConfused(t, cid);
    }
  }

  lemma {:induction false} CliCount(s: State, acts: seq<Action>)
    requires Run(s, acts).Some?
    ensures |Run(s, acts).value.clis| == |s.clis|
    decreases |acts|
  {
    if acts != [] { CliCount(Apply(s, acts[0]).value, acts[1..]); }
  }

  /** A finished attempt heard exactly one message that ends a session,
      and heard it last; an unfinished one has heard none. */
  lemma OneLastWord(s: State, acts: seq<Action>, cid: nat)
    requires Init(s) && Run(s, acts).Some? && cid < |s.clis|
    ensures |Run(s, acts).value.clis| == |s.clis|
    ensures var cli := Run(s, acts).value.clis[cid];
            && (cli.phase.Finished? ==> cli.client.Ended?)
            && (cli.client.Ended? <==> exists m <- cli.got :: m.EndsSession())
            && (forall i | 0 <= i < |cli.got| && cli.got[i].EndsSession() :: i == |cli.got| - 1)
  {
    InitInv(s);
    InvRun(s, acts);
    CliCount(s, acts);
    var cli := Run(s, acts).value.clis[cid];
    assert CliOk(cli);
    assert forall i | 0 <= i < |cli.got| - 1 :: cli.got[i] in cli.got[..|cli.got| - 1];
  }
}
