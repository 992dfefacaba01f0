/** The agent is invisible: every run with it in the middle is, for each CLI, a
    run of the same client and the same daemon wired together directly. */
module AgentTransparency {
  import opened Wrappers
  import opened Protocol
  import opened Parties
  import opened Agent
  import opened AgentSafety
  import Direct

  /** A CLI's session as the reference system would show it. Messages held up at
      the agent are still on the wire; a session waiting in the backlog has a
      daemon at its request loop, and so has one that ended well. */
  function View(s: State, cid: nat): Direct.Link
    requires cid < |s.clis|
  {
    var cli := s.clis[cid];
    match cli.socket
    case Unused => Direct.Link(AwaitProbe, cli.alive, [], [], Loop)
    case Queued => Direct.Link(cli.client, cli.alive, cli.up, [], Loop)
    case Served =>
      if s.ws.Absent? then Direct.Link(cli.client, cli.alive, [], cli.down, Gone)
      else Direct.Link(cli.client, cli.alive, if s.ws.daemon.Gone? then [] else s.ws.toDaemon + cli.up,
                       cli.down + s.ws.toAgent, Direct.OnWire(s.ws.daemon))
    case Closed(lost) => Direct.Link(cli.client, cli.alive, [], cli.down, if lost then Gone else Loop)
  }

  predicate Lossless(acts: seq<Direct.Act>) {
    forall i | 0 <= i < |acts| :: !acts[i].Cut? && !acts[i].ClientDies?
  }

  /** `y` follows from `x` in the reference system; without `faults`, with every
      message of both directions delivered in order. */
  ghost predicate Simulated(x: Direct.Link, y: Direct.Link, faults: bool) {
    exists acts :: Direct.Run(x, acts) == Some(y) && (faults || Lossless(acts))
  }

  lemma SimulatedTrans(x: Direct.Link, y: Direct.Link, z: Direct.Link, faults: bool)
    requires Simulated(x, y, faults) && Simulated(y, z, faults)
    ensures Simulated(x, z, faults)
  {
    var a :| Direct.Run(x, a) == Some(y) && (faults || Lossless(a));
    var b :| Direct.Run(y, b) == Some(z) && (faults || Lossless(b));
    Direct.RunAppend(x, a, b);
    assert Direct.Run(x, a + b) == Some(z);
  }

  lemma ByOne(x: Direct.Link, y: Direct.Link, a: Direct.Act, faults: bool)
    requires Direct.Apply(x, a) == Some(y)
    requires faults || (!a.Cut? && !a.ClientDies?)
    ensures Simulated(x, y, faults)
  {
    assert Direct.Run(y, [a][1..]) == Some(y);
    assert Direct.Run(x, [a]) == Some(y);
  }

  lemma ByNone(x: Direct.Link, faults: bool)
    ensures Simulated(x, x, faults)
  {
    assert Direct.Run(x, []) == Some(x);
  }

  /** The connection is lost with `y.toClient` still delivered. */
  lemma ByCut(x: Direct.Link, y: Direct.Link)
    requires y.toClient <= x.toClient
    requires y == x.(daemon := Gone, toDaemon := [], toClient := y.toClient)
    ensures Simulated(x, y, true)
  {
    assert x.toClient[..|y.toClient|] == y.toClient;
    ByOne(x, y, Direct.Cut(|y.toClient|), true);
  }

  /** Nothing has failed so far. */
  ghost predicate Healthy(s: State) {
    && (forall c: nat | c < |s.clis| :: s.clis[c].alive && s.clis[c].socket != Closed(true))
    && (s.ws.Conn? ==> !s.ws.daemon.Gone?)
  }

  lemma ViewCliSend(s: State, cid: nat, mv: Move, faults: bool)
    requires Inv(s) && DoCliSend(s, cid, mv).Some? && (faults || Healthy(s))
    ensures Simulated(View(s, cid), View(DoCliSend(s, cid, mv).value, cid), faults)
  {
    var x, y := View(s, cid), View(DoCliSend(s, cid, mv).value, cid);
    var mid := Direct.Apply(x, Direct.ClientSends(mv)).value;
    ByOne(x, mid, Direct.ClientSends(mv), faults);
    var sent := ClientSend(s.clis[cid].client, mv).value.1;
    if s.clis[cid].socket.Served? {
      if s.ws.daemon.Gone? {
        ByCut(mid, y);
        SimulatedTrans(x, mid, y, true);
      } else {
        assert s.ws.toDaemon + (s.clis[cid].up + sent) == (s.ws.toDaemon + s.clis[cid].up) + sent;
      }
    }
  }

  lemma ViewCliRecv(s: State, cid: nat, faults: bool)
    requires Inv(s) && DoCliRecv(s, cid).Some?
    ensures Simulated(View(s, cid), View(DoCliRecv(s, cid).value, cid), faults)
  {
    var x, y := View(s, cid), View(DoCliRecv(s, cid).value, cid);
    var cli := s.clis[cid];
    if cli.socket.Served? {
      SessionRecv(cli, s.worker, s.ws);
      assert (cli.down + s.ws.toAgent)[1..] == cli.down[1..] + s.ws.toAgent;
    }
    ByOne(x, y, Direct.ClientReads, faults);
  }

  lemma ViewTeardown(s: State)
    requires Inv(s) && s.worker.Serving?
    ensures Simulated(View(s, s.worker.cid), View(Teardown(s, s.worker.cid), s.worker.cid), true)
  {
    ByCut(View(s, s.worker.cid), View(Teardown(s, s.worker.cid), s.worker.cid));
  }

  lemma ViewAgentEof(s: State)
    requires Inv(s) && DoAgentEof(s).Some?
    ensures Simulated(View(s, s.worker.cid), View(DoAgentEof(s).value, s.worker.cid), true)
  {
    ViewTeardown(s);
    var cli := s.clis[s.worker.cid];
    assert cli.down + s.ws.toAgent == cli.down;
    if !s.worker.started {
      assert !s.ws.daemon.Gone? ==> s.ws.toDaemon + cli.up == [];
      ByNone(View(s, s.worker.cid), true);
    }
  }

  lemma ViewAgentUp(s: State)
    requires Inv(s) && DoAgentUp(s).Some?
    ensures View(s, s.worker.cid) == View(DoAgentUp(s).value, s.worker.cid)
  {
    var up := s.clis[s.worker.cid].up;
    assert (s.ws.toDaemon + [up[0]]) + up[1..] == s.ws.toDaemon + up;
  }

  lemma ViewAgentDown(s: State)
    requires Inv(s) && DoAgentDown(s).Some?
    ensures View(s, s.worker.cid) == View(DoAgentDown(s).value, s.worker.cid)
  {
    var cli := s.clis[s.worker.cid];
    var m, rest := s.ws.toAgent[0], s.ws.toAgent[1..];
    SessionDown(cli, s.worker, s.ws);
    assert (cli.down + [m]) + rest == cli.down + s.ws.toAgent;
    if m.EndsSession() {
      assert (cli.down + [m]) + rest == cli.down + [m];
      assert !s.ws.daemon.Gone? ==> s.ws.toDaemon + cli.up == [];
    }
  }

  lemma ViewAgentAccept(s: State, faults: bool)
    requires Inv(s) && DoAgentAccept(s).Some? && (faults || Healthy(s))
    ensures Simulated(View(s, s.queue[0].cid), View(DoAgentAccept(s).value, s.queue[0].cid), faults)
  {
    var t := DoAgentAccept(s).value;
    var cid := s.queue[0].cid;
    assert s.clis[cid].down + t.ws.toAgent == [];
    if t.ws.daemon.Gone? {
      ByCut(View(s, cid), View(t, cid));
    } else {
      assert t.ws.toDaemon + s.clis[cid].up == s.clis[cid].up;
      ByNone(View(s, cid), faults);
    }
  }

  /** What the daemon side does, seen by the session being served. */
  lemma ViewDaemonRead(s: State, faults: bool)
    requires Inv(s) && DoDaemonRead(s).Some? && s.worker.Serving?
    ensures Simulated(View(s, s.worker.cid), View(DoDaemonRead(s).value, s.worker.cid), faults)
  {
    var x, y := View(s, s.worker.cid), View(DoDaemonRead(s).value, s.worker.cid);
    var cli := s.clis[s.worker.cid];
    SessionDaemonRead(cli, s.worker, s.ws);
    var wire := s.ws.toDaemon + cli.up;
    assert wire[0] == s.ws.toDaemon[0] && wire[1..] == s.ws.toDaemon[1..] + cli.up;
    ByOne(x, y, Direct.DaemonReads, faults);
  }

  lemma ViewDaemonSpeak(s: State, m: Message, outputs: nat, faults: bool)
    requires Inv(s) && DoDaemonSpeak(s, m, outputs).Some? && s.worker.Serving?
    ensures Simulated(View(s, s.worker.cid), View(DoDaemonSpeak(s, m, outputs).value, s.worker.cid), faults)
  {
    var x, y := View(s, s.worker.cid), View(DoDaemonSpeak(s, m, outputs).value, s.worker.cid);
    var cli := s.clis[s.worker.cid];
    assert cli.down + (s.ws.toAgent + [m]) == (cli.down + s.ws.toAgent) + [m];
    ByOne(x, y, Direct.DaemonSays(m, outputs), faults);
  }

  lemma ViewWsLost(s: State, a: Action)
    requires Inv(s) && Apply(s, a).Some? && s.worker.Serving?
    requires a.WsDrops? || a.DaemonFails?
    ensures Simulated(View(s, s.worker.cid), View(Apply(s, a).value, s.worker.cid), true)
  {
    var cli := s.clis[s.worker.cid];
    assert cli.down + [] == cli.down;
    ByCut(View(s, s.worker.cid), View(Apply(s, a).value, s.worker.cid));
  }

  /** The CLI whose session an action is about, if it touches one at all. */
  function Subject(s: State, a: Action): Option<nat> {
    match a
    case CliSend(cid, _) => Some(cid)
    case CliRecv(cid) => Some(cid)
    case CliEof(cid) => Some(cid)
    case CliDies(cid) => Some(cid)
    case CliOpen(cid, _) => Some(cid)
    case AgentAccept => if s.queue != [] && s.queue[0].Proxy? then Some(s.queue[0].cid) else None
    case ConnectFails => if s.queue != [] && s.queue[0].Proxy? then Some(s.queue[0].cid) else None
    case _ => if s.worker.Serving? then Some(s.worker.cid) else None
  }

  predicate ByCli(a: Action) {
    a.CliStart? || a.CliOpen? || a.CliSend? || a.CliRecv? || a.CliFinish? || a.CliEof? || a.CliDies?
  }

  /** Sessions an action is not about look the same after it. */
  lemma OthersUnmovedByCli(s: State, a: Action, cid: nat)
    requires ByCli(a) && Apply(s, a).Some?
    requires cid < |s.clis| && s.clis[cid].socket != Unused && a.cid != cid
    ensures cid < |Apply(s, a).value.clis| && View(Apply(s, a).value, cid) == View(s, cid)
  {
    var t := Apply(s, a).value;
    assert t.clis[cid] == s.clis[cid] && t.ws == s.ws;
  }

  lemma OthersUnmovedByAgent(s: State, a: Action, cid: nat)
    requires WorkerOk(s) && QueueOk(s) && Apply(s, a).Some? && cid < |s.clis| && Subject(s, a) != Some(cid)
    requires !ByCli(a)
    ensures cid < |Apply(s, a).value.clis| && View(Apply(s, a).value, cid) == View(s, cid)
  {
    var t := Apply(s, a).value;
    if a.AgentRpc? {
      CallsUnseen(s, a.sent, cid);
    } else {
      assert t.clis[cid] == s.clis[cid];
    }
  }

  /** A call moves nothing on anybody's connection. */
  lemma CallsUnseen(s: State, sent: bool, cid: nat)
    requires WorkerOk(s) && QueueOk(s) && DoAgentRpc(s, sent).Some? && cid < |s.clis|
    ensures var t := DoAgentRpc(s, sent).value; cid < |t.clis| && View(t, cid) == View(s, cid)
  {
    var t := DoAgentRpc(s, sent).value;
    assert s.clis[cid].socket != Served;
    assert t.clis[cid] == s.clis[cid].(phase := t.clis[cid].phase);
  }

  /** One action with the agent is a few of the reference system, or none. */
  lemma CliStepSimulated(s: State, a: Action, cid: nat, faults: bool)
    requires Inv(s) && Apply(s, a).Some? && cid < |s.clis| && s.clis[cid].socket != Unused
    requires faults || (Healthy(s) && !IsFailure(a))
    requires ByCli(a)
    ensures cid < |Apply(s, a).value.clis|
    ensures Simulated(View(s, cid), View(Apply(s, a).value, cid), faults)
  {
    var x, t := View(s, cid), Apply(s, a).value;
    if a.cid != cid {
      OthersUnmovedByCli(s, a, cid);
      ByNone(x, faults);
    } else {
      match a
      case CliSend(_, mv) => ViewCliSend(s, cid, mv, faults);
      case CliRecv(_) => ViewCliRecv(s, cid, faults);
      case CliEof(_) => ByOne(x, View(t, cid), Direct.ClientDies, true);
      case CliDies(_) => ByOne(x, View(t, cid), Direct.ClientDies, true);
      case _ => ByNone(x, faults);
    }
  }

  lemma AgentStepSimulated(s: State, a: Action, cid: nat, faults: bool)
    requires Inv(s) && Apply(s, a).Some? && cid < |s.clis| && s.clis[cid].socket != Unused
    requires faults || (Healthy(s) && !IsFailure(a))
    requires !ByCli(a)
    ensures cid < |Apply(s, a).value.clis|
    ensures Simulated(View(s, cid), View(Apply(s, a).value, cid), faults)
  {
    var x, t := View(s, cid), Apply(s, a).value;
    if Subject(s, a) != Some(cid) {
      OthersUnmovedByAgent(s, a, cid);
      ByNone(x, faults);
    } else {
      match a
      case AgentAccept => ViewAgentAccept(s, faults);
      case ConnectFails => ByCut(x, View(t, cid));
      case AgentUp => ViewAgentUp(s); ByNone(x, faults);
      case AgentUpFails => ViewTeardown(s);
      case AgentEof => ViewAgentEof(s);
      case AgentDown => ViewAgentDown(s); ByNone(x, faults);
      case AgentDownFails => ViewTeardown(s);
      case DaemonRead => ViewDaemonRead(s, faults);
      case DaemonSpeak(m, outputs) => ViewDaemonSpeak(s, m, outputs, faults);
      case DaemonRelease => ByNone(x, faults);
      case WsDrops => ViewWsLost(s, a);
      case DaemonFails => ViewWsLost(s, a);
      case _ => ByNone(x, faults);
    }
  }

  lemma StepSimulated(s: State, a: Action, cid: nat, faults: bool)
    requires Inv(s) && Apply(s, a).Some? && cid < |s.clis| && s.clis[cid].socket != Unused
    requires faults || (Healthy(s) && !IsFailure(a))
    ensures cid < |Apply(s, a).value.clis|
    ensures Simulated(View(s, cid), View(Apply(s, a).value, cid), faults)
  {
    if ByCli(a) { CliStepSimulated(s, a, cid, faults); } else { AgentStepSimulated(s, a, cid, faults); }
  }

  lemma StillHealthyByCli(s: State, a: Action)
    requires Inv(s) && Healthy(s) && !IsFailure(a) && Apply(s, a).Some? && ByCli(a)
    ensures Healthy(Apply(s, a).value)
  {
  }

  lemma StillHealthyByAgent(s: State, a: Action)
    requires Inv(s) && Healthy(s) && !IsFailure(a) && Apply(s, a).Some? && !ByCli(a)
    requires !a.DaemonRead? && !a.DaemonSpeak? && !a.DaemonRelease?
    ensures Healthy(Apply(s, a).value)
  {
    var t := Apply(s, a).value;
    if s.worker.Serving? {
      assert s.clis[s.worker.cid].alive && !s.ws.daemon.Gone?;
    }
    forall c: nat | c < |t.clis| ensures t.clis[c].alive && t.clis[c].socket != Closed(true) {
      assert s.clis[c].alive;
    }
  }

  lemma StillHealthy(s: State, a: Action)
    requires Inv(s) && Healthy(s) && !IsFailure(a) && Apply(s, a).Some?
    ensures Healthy(Apply(s, a).value)
  {
    if ByCli(a) {
      StillHealthyByCli(s, a);
    } else if a.DaemonRead? || a.DaemonSpeak? || a.DaemonRelease? {
      assert Apply(s, a).value.clis == s.clis;
    } else {
      StillHealthyByAgent(s, a);
    }
  }

  lemma {:induction false} RunSimulated(s: State, acts: seq<Action>, cid: nat, faults: bool)
    requires Inv(s) && Run(s, acts).Some? && cid < |s.clis| && s.clis[cid].socket != Unused
    requires faults || (Healthy(s) && NoFailure(acts))
    ensures |Run(s, acts).value.clis| == |s.clis|
    ensures Simulated(View(s, cid), View(Run(s, acts).value, cid), faults)
    decreases |acts|
  {
    if acts == [] {
      ByNone(View(s, cid), faults);
    } else {
      var t := Apply(s, acts[0]).value;
      InvStep(s, acts[0]);
      StepSimulated(s, acts[0], cid, faults);
      if !faults { StillHealthy(s, acts[0]); }
      StillOpen(s, acts[0], cid);
      RunSimulated(t, acts[1..], cid, faults);
      SimulatedTrans(View(s, cid), View(t, cid), View(Run(s, acts).value, cid), faults);
    }
  }

  /** A CLI opens one proxy connection and never another. */
  lemma StillOpen(s: State, a: Action, cid: nat)
    requires Inv(s) && Apply(s, a).Some? && cid < |s.clis| && s.clis[cid].socket != Unused
    ensures |Apply(s, a).value.clis| == |s.clis| && Apply(s, a).value.clis[cid].socket != Unused
  {
  }

  /** From the moment a CLI opens its connection, in any run with any failures,
      what it and its daemon thread see is a run of the reference system from a
      fresh connection; if nothing fails, one that loses no message. */
  lemma ProxyIsTransparent(s0: State, before: seq<Action>, cid: nat, first: Message, after: seq<Action>)
    requires Init(s0) && Run(s0, before).Some? && cid < |s0.clis|
    requires Apply(Run(s0, before).value, CliOpen(cid, first)).Some?
    requires Run(Apply(Run(s0, before).value, CliOpen(cid, first)).value, after).Some?
    ensures var t := Run(Apply(Run(s0, before).value, CliOpen(cid, first)).value, after).value;
            && |t.clis| == |s0.clis|
            && Simulated(Direct.Link(Opening(first), true, [], [], Loop), View(t, cid), true)
            && (NoFailure(before) && NoFailure(after) ==>
                  Simulated(Direct.Link(Opening(first), true, [], [], Loop), View(t, cid), false))
  {
    InitInv(s0);
    InvRun(s0, before);
    CliCount(s0, before);
    var s := Run(s0, before).value;
    var s' := DoCliOpen(s, cid, first).value;
    assert CliOk(s.clis[cid]);
    InvStep(s, CliOpen(cid, first));
    RunSimulated(s', after, cid, true);
    if NoFailure(before) && NoFailure(after) {
      RunHealthy(s0, before);
      StillHealthyByCli(s, CliOpen(cid, first));
      RunSimulated(s', after, cid, false);
    }
  }

  lemma {:induction false} RunHealthy(s: State, acts: seq<Action>)
    requires Inv(s) && Healthy(s) && NoFailure(acts) && Run(s, acts).Some?
    ensures Healthy(Run(s, acts).value)
    decreases |acts|
  {
    if acts != [] {
      InvStep(s, acts[0]);
      StillHealthy(s, acts[0]);
      RunHealthy(Apply(s, acts[0]).value, acts[1..]);
    }
  }
}
