/** The agent, the CLIs queued on its socket, and its one WebSocket to the
    daemon, as one state machine. An action is something one party does between
    two blocking calls; failures are actions too. */
module Agent {
  import opened Wrappers
  import opened Protocol
  import opened Parties

  /** How far a CLI process got: `Getting` and `Setting` are the two RPCs to
      the agent, `Talking` the time it holds a proxy connection. */
  datatype Phase = Fresh | Getting | Ready | Talking | Setting | Finished

  /** The CLI's proxy connection as the agent sees it. A closed one remembers
      whether the connection behind it was lost. */
  datatype Socket = Unused | Queued | Served | Closed(lost: bool)

  datatype Cli = Cli(
    phase: Phase,
    alive: bool,
    client: Client,
    socket: Socket,
    up: seq<Message>,
    down: seq<Message>,
    got: seq<Message>)

  /** A connection waiting in the listener's backlog, in order of arrival. */
  datatype Entry = Bare | Rpc(cid: nat) | Proxy(cid: nat)

  /** `Serving(cid, started, toClient)`: inside `proxy`, where `started` is
      `session_started` and `toClient` says which of the two inner loops runs. */
  datatype Worker = Idle | Serving(cid: nat, started: bool, toClient: bool)

  datatype Ws = Absent | Conn(toDaemon: seq<Message>, toAgent: seq<Message>, daemon: Daemon)

  datatype State = State(clis: seq<Cli>, queue: seq<Entry>, worker: Worker, ws: Ws)

  datatype Action =
    // The CLI
    | CliStart(cid: nat)
    | CliOpen(cid: nat, first: Message)
    | CliSend(cid: nat, move: Move)
    | CliRecv(cid: nat)
    | CliFinish(cid: nat)
    | CliEof(cid: nat)
    // The agent
    | AgentBare
    | AgentRpc(sent: bool)
    | AgentAccept
    | AgentUp
    | AgentUpFails
    | AgentEof
    | AgentDown
    | AgentDownFails
    // The daemon
    | DaemonRead
    | DaemonSpeak(message: Message, outputs: nat)
    | DaemonRelease
    // Failures
    | CliDies(cid: nat)
    | WsDrops
    | DaemonFails
    | ConnectFails

  predicate IsFailure(a: Action) {
    a.CliDies? || a.WsDrops? || a.DaemonFails? || a.ConnectFails?
  }

  predicate NoFailure(acts: seq<Action>) {
    forall i | 0 <= i < |acts| :: !IsFailure(acts[i])
  }

  function NewCli(): Cli {
    Cli(Fresh, true, AwaitProbe, Unused, [], [], [])
  }

  ghost predicate Init(s: State) {
    && (forall c: nat | c < |s.clis| :: s.clis[c] == NewCli())
    && s.queue == []
    && s.worker == Idle
    && (s.ws == Absent || s.ws == Conn([], [], Loop))
  }

  predicate IsAlive(s: State, cid: nat) {
    cid < |s.clis| && s.clis[cid].alive
  }

  /** The error path of the accept loop: the session's connection is closed and
      the WebSocket is dropped. */
  function Teardown(s: State, cid: nat): State
    requires cid < |s.clis|
  {
    s.(clis := s.clis[cid := s.clis[cid].(socket := Closed(true))], worker := Idle, ws := Absent)
  }

  // `spawn_agent_for_next_time` connects and hangs up, then the RPC is made.
  function DoCliStart(s: State, cid: nat): Option<State> {
    if IsAlive(s, cid) && s.clis[cid].phase.Fresh? then
      Some(s.(clis := s.clis[cid := s.clis[cid].(phase := Getting)], queue := s.queue + [Bare, Rpc(cid)]))
    else None
  }

  // A tip needs no sync state and is the CLI's first word; a build asks for it
  // first. Either way the CLI has connected and hung up before.
  function DoCliOpen(s: State, cid: nat, first: Message): Option<State> {
    if IsAlive(s, cid)
      && ((s.clis[cid].phase.Ready? && first.Probe?) || (s.clis[cid].phase.Fresh? && first.TipRequest?)) then
      Some(s.(clis := s.clis[cid := s.clis[cid].(phase := Talking, client := Opening(first), socket := Queued)],
              queue := s.queue + if s.clis[cid].phase.Fresh? then [Bare, Proxy(cid)] else [Proxy(cid)]))
    else None
  }

  function DoCliSend(s: State, cid: nat, move: Move): Option<State> {
    if IsAlive(s, cid) && s.clis[cid].phase.Talking? && (s.clis[cid].socket.Queued? || s.clis[cid].socket.Served?) then
      var r := ClientSend(s.clis[cid].client, move);
      if r.Some? then
        Some(s.(clis := s.clis[cid := s.clis[cid].(client := r.value.0, up := s.clis[cid].up + r.value.1)]))
      else None
    else None
  }

  function DoCliRecv(s: State, cid: nat): Option<State> {
    if IsAlive(s, cid) && s.clis[cid].phase.Talking? && s.clis[cid].down != [] then
      var m := s.clis[cid].down[0];
      Some(s.(clis := s.clis[cid := s.clis[cid].(
        client := ClientRecv(s.clis[cid].client, m), down := s.clis[cid].down[1..], got := s.clis[cid].got + [m])]))
    else None
  }

  // After a build the sync state is recorded while the proxy connection is
  // still open; a busy answer and a tip end the attempt at once.
  function DoCliFinish(s: State, cid: nat): Option<State> {
    if IsAlive(s, cid) && s.clis[cid].phase.Talking? && s.clis[cid].client.Ended? then
      if s.clis[cid].client.last.BuildFinished? then
        Some(s.(clis := s.clis[cid := s.clis[cid].(phase := Setting)], queue := s.queue + [Rpc(cid)]))
      else Some(s.(clis := s.clis[cid := s.clis[cid].(phase := Finished)]))
    else None
  }

  function DoCliEof(s: State, cid: nat): Option<State> {
    if IsAlive(s, cid) && s.clis[cid].phase.Talking? && s.clis[cid].socket.Closed? && s.clis[cid].down == []
      && !s.clis[cid].client.Ended? then
      Some(s.(clis := s.clis[cid := s.clis[cid].(alive := false)]))
    else None
  }

  function DoAgentBare(s: State): Option<State> {
    if s.worker.Idle? && s.queue != [] && s.queue[0].Bare? then Some(s.(queue := s.queue[1..])) else None
  }

  function DoAgentRpc(s: State, sent: bool): Option<State> {
    if s.worker.Idle? && s.queue != [] && s.queue[0].Rpc? && s.queue[0].cid < |s.clis| then
      var cid := s.queue[0].cid;
      var cli := s.clis[cid];
      if !cli.alive then
        // If the request was sent before the CLI died, the response cannot be
        // written: a session error like any other.
        Some(s.(queue := s.queue[1..], ws := if sent then Absent else s.ws))
      else
        var next := if cli.phase.Getting? then Ready else if cli.phase.Setting? then Finished else cli.phase;
        Some(s.(queue := s.queue[1..], clis := s.clis[cid := cli.(phase := next)]))
    else None
  }

  function DoAgentAccept(s: State): Option<State> {
    if s.worker.Idle? && s.queue != [] && s.queue[0].Proxy? && s.queue[0].cid < |s.clis| then
      var cid := s.queue[0].cid;
      Some(s.(queue := s.queue[1..],
              clis := s.clis[cid := s.clis[cid].(socket := Served)],
              worker := Serving(cid, false, false),
              ws := if s.ws.Absent? then Conn([], [], Loop) else s.ws))
    else None
  }

  function DoAgentUp(s: State): Option<State> {
    if s.worker.Serving? && !s.worker.toClient && s.worker.cid < |s.clis| && s.ws.Conn?
      && s.clis[s.worker.cid].up != [] then
      var m := s.clis[s.worker.cid].up[0];
      Some(s.(clis := s.clis[s.worker.cid := s.clis[s.worker.cid].(up := s.clis[s.worker.cid].up[1..])],
              worker := s.worker.(started := true, toClient := m.EndsClientTurn()),
              ws := s.ws.(toDaemon := s.ws.toDaemon + [m])))
    else None
  }

  function DoAgentUpFails(s: State): Option<State> {
    if s.worker.Serving? && !s.worker.toClient && s.worker.cid < |s.clis| && s.ws.Conn? && s.ws.daemon.Gone?
      && s.clis[s.worker.cid].up != [] then
      Some(Teardown(s, s.worker.cid))
    else None
  }

  function DoAgentEof(s: State): Option<State> {
    if s.worker.Serving? && !s.worker.toClient && s.worker.cid < |s.clis|
      && !s.clis[s.worker.cid].alive && s.clis[s.worker.cid].up == [] then
      // A client that hung up before sending anything leaves the WebSocket as it was.
      if s.worker.started then Some(Teardown(s, s.worker.cid))
      else Some(s.(clis := s.clis[s.worker.cid := s.clis[s.worker.cid].(socket := Closed(s.ws.Conn? && s.ws.daemon.Gone?))], worker := Idle))
    else None
  }

  function DoAgentDown(s: State): Option<State> {
    if s.worker.Serving? && s.worker.toClient && s.worker.cid < |s.clis| && s.ws.Conn? && s.ws.toAgent != [] then
      var m := s.ws.toAgent[0];
      var cli := s.clis[s.worker.cid].(down := s.clis[s.worker.cid].down + [m]);
      var ws := s.ws.(toAgent := s.ws.toAgent[1..]);
      if m.EndsSession() then
        Some(s.(clis := s.clis[s.worker.cid := cli.(socket := Closed(ws.daemon.Gone?))], worker := Idle, ws := ws))
      else
        Some(s.(clis := s.clis[s.worker.cid := cli], worker := s.worker.(toClient := !m.YieldsToClient()), ws := ws))
    else None
  }

  // Nothing more can be read, or the client is gone and cannot be written to.
  function DoAgentDownFails(s: State): Option<State> {
    if s.worker.Serving? && s.worker.toClient && s.worker.cid < |s.clis| && s.ws.Conn?
      && ((s.ws.daemon.Gone? && s.ws.toAgent == []) || (s.ws.toAgent != [] && !s.clis[s.worker.cid].alive)) then
      Some(Teardown(s, s.worker.cid))
    else None
  }

  function DoDaemonRead(s: State): Option<State> {
    if s.ws.Conn? && Listens(s.ws.daemon) && s.ws.toDaemon != [] then
      Some(s.(ws := s.ws.(daemon := DaemonRecv(s.ws.daemon, s.ws.toDaemon[0]), toDaemon := s.ws.toDaemon[1..])))
    else None
  }

  function DoDaemonSpeak(s: State, m: Message, outputs: nat): Option<State> {
    if s.ws.Conn? && DaemonSay(s.ws.daemon, m, outputs).Some? then
      Some(s.(ws := s.ws.(daemon := DaemonSay(s.ws.daemon, m, outputs).value, toAgent := s.ws.toAgent + [m])))
    else None
  }

  function DoDaemonRelease(s: State): Option<State> {
    if s.ws.Conn? && s.ws.daemon.Releasing? then Some(s.(ws := s.ws.(daemon := Loop))) else None
  }

  function DoCliDies(s: State, cid: nat): Option<State> {
    if IsAlive(s, cid) then Some(s.(clis := s.clis[cid := s.clis[cid].(alive := false)])) else None
  }

  function DoWsDrops(s: State): Option<State> {
    if s.ws.Conn? then Some(s.(ws := Conn([], [], Gone))) else None
  }

  // An I/O error while it handles a request ends the thread; what it had
  // already said still arrives.
  function DoDaemonFails(s: State): Option<State> {
    if s.ws.Conn? && (s.ws.daemon.Deciding? || s.ws.daemon.Planning? || s.ws.daemon.Receiving? || s.ws.daemon.AwaitManifest?) then
      Some(s.(ws := s.ws.(toDaemon := [], daemon := Gone)))
    else None
  }

  function DoConnectFails(s: State): Option<State> {
    if s.worker.Idle? && s.queue != [] && s.queue[0].Proxy? && s.queue[0].cid < |s.clis| && s.ws.Absent? then
      Some(s.(queue := s.queue[1..], clis := s.clis[s.queue[0].cid := s.clis[s.queue[0].cid].(socket := Closed(true))]))
    else None
  }

  function Apply(s: State, a: Action): Option<State> {
    match a
    case CliStart(cid) => DoCliStart(s, cid)
    case CliOpen(cid, first) => DoCliOpen(s, cid, first)
    case CliSend(cid, move) => DoCliSend(s, cid, move)
    case CliRecv(cid) => DoCliRecv(s, cid)
    case CliFinish(cid) => DoCliFinish(s, cid)
    case CliEof(cid) => DoCliEof(s, cid)
    case AgentBare => DoAgentBare(s)
    case AgentRpc(sent) => DoAgentRpc(s, sent)
    case AgentAccept => DoAgentAccept(s)
    case AgentUp => DoAgentUp(s)
    case AgentUpFails => DoAgentUpFails(s)
    case AgentEof => DoAgentEof(s)
    case AgentDown => DoAgentDown(s)
    case AgentDownFails => DoAgentDownFails(s)
    case DaemonRead => DoDaemonRead(s)
    case DaemonSpeak(m, outputs) => DoDaemonSpeak(s, m, outputs)
    case DaemonRelease => DoDaemonRelease(s)
    case CliDies(cid) => DoCliDies(s, cid)
    case WsDrops => DoWsDrops(s)
    case DaemonFails => DoDaemonFails(s)
    case ConnectFails => DoConnectFails(s)
  }

  /** The state after a run, if every action of it was possible. */
  function Run(s: State, acts: seq<Action>): Option<State>
    decreases |acts|
  {
    if acts == [] then Some(s)
    else
      var t := Apply(s, acts[0]);
      if t.None? then None else Run(t.value, acts[1..])
  }
}
