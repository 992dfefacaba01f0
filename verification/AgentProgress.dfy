/** Nothing ever blocks for good: whatever has failed, some party that is not a
    failure can move until every CLI has finished or died, and each such move
    brings that end nearer. */
module AgentProgress {
  import opened Wrappers
  import opened Protocol
  import opened Parties
  import opened Agent
  import opened AgentSafety
  import opened AgentTransparency

  ghost predicate Quiescent(s: State) {
    && s.worker.Idle?
    && s.queue == []
    && (forall c: nat | c < |s.clis| :: !s.clis[c].alive || s.clis[c].phase.Finished?)
    && (s.ws.Conn? ==> s.ws.daemon.Loop? || s.ws.daemon.Gone?)
  }

  predicate CanMove(s: State, a: Action) {
    !IsFailure(a) && Apply(s, a).Some?
  }

  const ANY_PROBE := Probe([], BuildRequest([], None, "", ""), None)

  /** A daemon that owes the client an answer reads on or speaks. */
  function DaemonNext(d: Daemon): Action {
    match d
    case Releasing => DaemonRelease
    case Deciding(_) => DaemonSpeak(SlotsBusy, 0)
    case Tipping => DaemonSpeak(Tip(""), 0)
    case Planning => DaemonSpeak(NeedFiles([]), 0)
    case Acking => DaemonSpeak(SyncAck, 0)
    case BuildRunning(left) => DaemonSpeak(if left > 0 then BuildStdout([]) else BuildFinished(0), 0)
    case _ => DaemonRead
  }

  lemma DaemonNextWorks(v: Client, wire: seq<Message>, d: Daemon)
    requires v.Waits() && Joint(v, wire, d)
    ensures var a := DaemonNext(d);
            match a
            case DaemonSpeak(m, outputs) => DaemonSay(d, m, outputs).Some?
            case DaemonRelease => d.Releasing?
            case _ => a.DaemonRead? && Listens(d) && wire != []
  {
  }

  lemma DaemonMoves(s: State) returns (a: Action)
    requires Inv(s) && s.worker.Serving? && s.worker.toClient && s.ws.toAgent == [] && !s.ws.daemon.Gone?
    ensures CanMove(s, a)
  {
    var cli := s.clis[s.worker.cid];
    assert cli.down + s.ws.toAgent == cli.down && s.ws.toDaemon + cli.up == s.ws.toDaemon;
    DaemonNextWorks(Follow(cli.client, cli.down), s.ws.toDaemon, s.ws.daemon);
    a := DaemonNext(s.ws.daemon);
  }

  lemma ClientMoves(s: State, cid: nat) returns (a: Action)
    requires Inv(s) && cid < |s.clis| && s.clis[cid].alive && s.clis[cid].socket.Served?
    requires Follow(s.clis[cid].client, s.clis[cid].down).Speaks()
    ensures CanMove(s, a)
  {
    assert CliOk(s.clis[cid]);
    if s.clis[cid].down != [] {
      a := CliRecv(cid);
    } else {
      match s.clis[cid].client
      case Opening(_) => a := CliSend(cid, SendFirst);
      case SendingManifest => a := CliSend(cid, SendManifest(Manifest("", "", [])));
      case Streaming(left) => a := CliSend(cid, if left == [] then SendDone else SendFile(0, None));
    }
  }

  lemma ServingMoves(s: State) returns (a: Action)
    requires Inv(s) && s.worker.Serving?
    ensures CanMove(s, a)
  {
    var cid := s.worker.cid;
    if s.worker.toClient {
      if s.ws.toAgent != [] { a := AgentDown; }
      else if s.ws.daemon.Gone? { a := AgentDownFails; }
      else { a := DaemonMoves(s); }
    } else if s.clis[cid].up != [] {
      a := AgentUp;
    } else if !s.clis[cid].alive {
      a := AgentEof;
    } else {
      a := ClientMoves(s, cid);
    }
  }

  lemma IdleMoves(s: State) returns (a: Action)
    requires Inv(s) && s.worker.Idle? && !Quiescent(s)
    ensures CanMove(s, a)
  {
    if s.queue != [] {
      match s.queue[0]
      case Bare => a := AgentBare;
      case Rpc(_) => a := AgentRpc(true);
      case Proxy(_) => a := AgentAccept;
    } else if c: nat :| c < |s.clis| && s.clis[c].alive && !s.clis[c].phase.Finished? {
      var cli := s.clis[c];
      assert CliOk(cli);
      match cli.phase
      case Fresh => a := CliStart(c);
      case Ready => a := CliOpen(c, ANY_PROBE);
      case Talking =>
        assert cli.socket.Closed?;
        a := if cli.client.Ended? then CliFinish(c) else if cli.down != [] then CliRecv(c) else CliEof(c);
      case _ => assert false;
    } else {
      a := DaemonRelease;
    }
  }

  /** Every reachable state that is not the end has a move that is no failure. */
  lemma NoDeadlock(s0: State, acts: seq<Action>)
    requires Init(s0) && Run(s0, acts).Some?
    ensures Quiescent(Run(s0, acts).value) || exists a :: CanMove(Run(s0, acts).value, a)
  {
    InitInv(s0);
    InvRun(s0, acts);
    var s := Run(s0, acts).value;
    if s.worker.Serving? {
      var a := ServingMoves(s);
    } else if !Quiescent(s) {
      var a := IdleMoves(s);
    }
  }

  /** How much protocol is still ahead, whatever the number of files and the
      amount of output: each message outweighs all it can lead to. */
  function MessageRank(m: Message): nat {
    match m
    case Probe(_, _, _) => 14
    case ProbeMiss => 12
    case Manifest(_, _, _) => 10
    case NeedFiles(_) => 8
    case SyncDone => 6
    case TipRequest => 3
    case SyncAck => 1
    case ProbeAccepted => 1
    case SlotsBusy => 1
    case BuildFinished(_) => 1
    case Tip(_) => 1
    case _ => 0
  }

  function ClientRank(c: Client): nat {
    match c
    case Opening(first) => MessageRank(first) + 1
    case SendingManifest => 11
    case Streaming(_) => 7
    case _ => 0
  }

  function DaemonRank(d: Daemon): nat {
    match d
    case Deciding(_) => 13
    case Planning => 9
    case Acking => 5
    case BuildRunning(_) => 3
    case Tipping => 2
    case Releasing => 1
    case _ => 0
  }

  function MessagesRank(ms: seq<Message>): nat {
    if ms == [] then 0 else MessageRank(ms[0]) + MessagesRank(ms[1..])
  }

  lemma {:induction false} MessagesRankAppend(a: seq<Message>, b: seq<Message>)
    ensures MessagesRank(a + b) == MessagesRank(a) + MessagesRank(b)
  {
    if a == [] {
      assert a + b == b;
    } else {
      assert (a + b)[0] == a[0] && (a + b)[1..] == a[1..] + b;
      MessagesRankAppend(a[1..], b);
    }
  }

  lemma MessagesRankSnoc(a: seq<Message>, m: Message)
    ensures MessagesRank(a + [m]) == MessagesRank(a) + MessageRank(m)
  {
    MessagesRankAppend(a, [m]);
    assert MessagesRank([m]) == MessageRank(m) + MessagesRank([m][1..]);
  }

  function CliRank(c: Cli): nat {
    MessagesRank(c.up) + MessagesRank(c.down) +
    if !c.alive then 0
    else match c.phase
      case Fresh => 22
      case Getting => 19
      case Ready => 19
      case Talking => 2 + ClientRank(c.client)
      case _ => 0
  }

  /** How much is left to move within the current exchange: files to send,
      output to forward, and messages on their way. */
  function CliWork(c: Cli): nat {
    (if c.client.Streaming? then 4 * |c.client.left| else 0) + 3 * |c.up| + |c.down|
  }

  function WsRank(ws: Ws): nat {
    if ws.Absent? then 0 else MessagesRank(ws.toDaemon) + MessagesRank(ws.toAgent) + DaemonRank(ws.daemon)
  }

  function WsWork(ws: Ws): nat {
    if ws.Absent? then 0
    else 2 * |ws.toDaemon| + 2 * |ws.toAgent| + if ws.daemon.BuildRunning? then 3 * ws.daemon.outputs else 0
  }

  function Sum(f: Cli -> nat, clis: seq<Cli>): nat {
    if clis == [] then 0 else f(clis[0]) + Sum(f, clis[1..])
  }

  lemma {:induction false} SumUpdate(f: Cli -> nat, clis: seq<Cli>, i: nat, x: Cli)
    requires i < |clis|
    ensures Sum(f, clis[i := x]) + f(clis[i]) == Sum(f, clis) + f(x)
    decreases i
  {
    if i == 0 {
      assert clis[0 := x][1..] == clis[1..];
    } else {
      assert clis[i := x][1..] == clis[1..][i - 1 := x];
      SumUpdate(f, clis[1..], i - 1, x);
    }
  }

  function Rank(s: State): nat {
    Sum(CliRank, s.clis) + |s.queue| + WsRank(s.ws)
  }

  function Work(s: State): nat {
    Sum(CliWork, s.clis) + WsWork(s.ws) + if s.worker.Serving? then 1 else 0
  }

  predicate Nearer(t: State, s: State) {
    Rank(t) < Rank(s) || (Rank(t) == Rank(s) && Work(t) < Work(s))
  }

  /** Replacing one CLI changes both sums by the difference at that place. */
  lemma OneCliSums(s: State, t: State, cid: nat)
    requires cid < |s.clis| && |t.clis| == |s.clis| && t.clis == s.clis[cid := t.clis[cid]]
    ensures Sum(CliRank, t.clis) + CliRank(s.clis[cid]) == Sum(CliRank, s.clis) + CliRank(t.clis[cid])
    ensures Sum(CliWork, t.clis) + CliWork(s.clis[cid]) == Sum(CliWork, s.clis) + CliWork(t.clis[cid])
  {
    SumUpdate(CliRank, s.clis, cid, t.clis[cid]);
    SumUpdate(CliWork, s.clis, cid, t.clis[cid]);
  }

  lemma NearerBySend(s: State, cid: nat, mv: Move)
    requires DoCliSend(s, cid, mv).Some?
    ensures Nearer(DoCliSend(s, cid, mv).value, s)
  {
    OneCliSums(s, DoCliSend(s, cid, mv).value, cid);
    var sent := ClientSend(s.clis[cid].client, mv).value.1;
    MessagesRankAppend(s.clis[cid].up, sent);
    if sent != [] { MessagesRankSnoc([], sent[0]); assert [] + [sent[0]] == sent; }
  }

  lemma NearerByRecv(s: State, cid: nat)
    requires DoCliRecv(s, cid).Some?
    ensures Nearer(DoCliRecv(s, cid).value, s)
  {
    OneCliSums(s, DoCliRecv(s, cid).value, cid);
    RecvRank(s.clis[cid].client, s.clis[cid].down[0]);
  }

  /** A message outweighs what its reader does next. Files asked for are work,
      paid for by the rank of the request. */
  lemma RecvRank(c: Client, m: Message)
    ensures ClientRank(ClientRecv(c, m)) < ClientRank(c) + MessageRank(m)
            || (ClientRank(ClientRecv(c, m)) == ClientRank(c) + MessageRank(m) && !ClientRecv(c, m).Streaming?)
  {
  }

  lemma NearerByCli(s: State, a: Action)
    requires Apply(s, a).Some? && (a.CliStart? || a.CliOpen? || a.CliFinish? || a.CliEof?)
    ensures Nearer(Apply(s, a).value, s)
  {
    OneCliSums(s, Apply(s, a).value, a.cid);
  }

  lemma NearerByAgent(s: State, a: Action)
    requires Apply(s, a).Some? && !IsFailure(a)
    requires a.AgentBare? || a.AgentRpc? || a.AgentAccept?
    ensures Nearer(Apply(s, a).value, s)
  {
    var t := Apply(s, a).value;
    if !a.AgentBare? {
      var cid := s.queue[0].cid;
      SumUpdate(CliRank, s.clis, cid, t.clis[cid]);
      SumUpdate(CliWork, s.clis, cid, t.clis[cid]);
      assert t.clis == s.clis[cid := t.clis[cid]];
    }
  }

  lemma NearerByUp(s: State)
    requires DoAgentUp(s).Some?
    ensures Nearer(DoAgentUp(s).value, s)
  {
    OneCliSums(s, DoAgentUp(s).value, s.worker.cid);
    MessagesRankSnoc(s.ws.toDaemon, s.clis[s.worker.cid].up[0]);
  }

  lemma NearerByDown(s: State)
    requires DoAgentDown(s).Some?
    ensures Nearer(DoAgentDown(s).value, s)
  {
    OneCliSums(s, DoAgentDown(s).value, s.worker.cid);
    MessagesRankSnoc(s.clis[s.worker.cid].down, s.ws.toAgent[0]);
  }

  lemma NearerByClosing(s: State, a: Action)
    requires Apply(s, a).Some? && (a.AgentUpFails? || a.AgentEof? || a.AgentDownFails?)
    ensures Nearer(Apply(s, a).value, s)
  {
    OneCliSums(s, Apply(s, a).value, s.worker.cid);
  }

  lemma NearerByDaemon(s: State, a: Action)
    requires Apply(s, a).Some? && !IsFailure(a)
    requires a.DaemonRead? || a.DaemonSpeak? || a.DaemonRelease?
    ensures Nearer(Apply(s, a).value, s)
  {
    if a.DaemonSpeak? { MessagesRankSnoc(s.ws.toAgent, a.message); }
  }

  /** Every move that is not a failure brings the end nearer, in the order that
      compares the protocol ahead first and the work in hand second. */
  lemma MovesBringTheEndNearer(s: State, a: Action)
    requires CanMove(s, a)
    ensures Nearer(Apply(s, a).value, s)
  {
    match a
    case AgentBare => NearerByAgent(s, a);
    case AgentRpc(_) => NearerByAgent(s, a);
    case AgentAccept => NearerByAgent(s, a);
    case AgentUp => NearerByUp(s);
    case AgentUpFails => NearerByClosing(s, a);
    case AgentEof => NearerByClosing(s, a);
    case AgentDown => NearerByDown(s);
    case AgentDownFails => NearerByClosing(s, a);
    case CliSend(cid, mv) => NearerBySend(s, cid, mv);
    case CliRecv(cid) => NearerByRecv(s, cid);
    case DaemonRead => NearerByDaemon(s, a);
    case DaemonSpeak(_, _) => NearerByDaemon(s, a);
    case DaemonRelease => NearerByDaemon(s, a);
    case _ => NearerByCli(s, a);
  }

  lemma {:induction false} Completes(s: State) returns (acts: seq<Action>)
    requires Inv(s)
    ensures NoFailure(acts) && Run(s, acts).Some? && Quiescent(Run(s, acts).value)
    decreases Rank(s), Work(s)
  {
    if Quiescent(s) {
      acts := [];
    } else {
      var a: Action;
      if s.worker.Serving? { a := ServingMoves(s); } else { a := IdleMoves(s); }
      MovesBringTheEndNearer(s, a);
      InvStep(s, a);
      var rest := Completes(Apply(s, a).value);
      acts := [a] + rest;
      assert acts[1..] == rest;
    }
  }

  /** Nothing is left to do but to fail. */
  ghost predicate Stuck(s: State) {
    forall a :: !CanMove(s, a)
  }

  /** The CLI is done, and the one message that ends a session is the last it
      heard. */
  predicate HeardOut(cli: Cli) {
    && cli.phase.Finished? && cli.client.Ended? && cli.client.last.EndsSession()
    && cli.got != [] && cli.got[|cli.got| - 1] == cli.client.last
    && forall m <- cli.got[..|cli.got| - 1] :: !m.EndsSession()
  }

  lemma QuiescentHeardOut(s: State)
    requires Inv(s) && Quiescent(s)
    ensures forall c: nat | c < |s.clis| && s.clis[c].alive :: HeardOut(s.clis[c])
  {
    forall c: nat | c < |s.clis| && s.clis[c].alive ensures HeardOut(s.clis[c]) {
      assert CliOk(s.clis[c]);
    }
  }

  /** Every run that can only go on by failing is over: whatever failed in it,
      every CLI still alive has finished and heard exactly one last word. If
      nothing failed, that is every CLI. */
  lemma MaximalRunsFinish(s0: State, acts: seq<Action>)
    requires Init(s0) && Run(s0, acts).Some? && Stuck(Run(s0, acts).value)
    ensures var t := Run(s0, acts).value;
            && |t.clis| == |s0.clis| && Quiescent(t)
            && (forall c: nat | c < |t.clis| && t.clis[c].alive :: HeardOut(t.clis[c]))
            && (NoFailure(acts) ==> forall c: nat | c < |t.clis| :: t.clis[c].alive)
  {
    NoDeadlock(s0, acts);
    InitInv(s0);
    InvRun(s0, acts);
    CliCount(s0, acts);
    QuiescentHeardOut(Run(s0, acts).value);
    if NoFailure(acts) { RunHealthy(s0, acts); }
  }

  /** No run goes on for ever without failing: from any point on an endless run
      fails again. */
  lemma EndlessRunsFail(states: nat -> State, acts: nat -> Action, k: nat)
    requires forall i: nat :: Apply(states(i), acts(i)) == Some(states(i + 1))
    ensures exists i: nat :: i >= k && IsFailure(acts(i))
    decreases Rank(states(k)), Work(states(k))
  {
    assert Apply(states(k), acts(k)) == Some(states(k + 1));
    if !IsFailure(acts(k)) {
      MovesBringTheEndNearer(states(k), acts(k));
      EndlessRunsFail(states, acts, k + 1);
    }
  }

  /** Where a client that opened with a probe can be, and one that asked for a tip. */
  predicate Building(c: Client) {
    match c
    case Opening(first) => first.Probe?
    case AwaitTip => false
    case Ended(m) => m.SlotsBusy? || m.BuildFinished?
    case _ => true
  }

  predicate Asking(c: Client) {
    match c
    case Opening(first) => first.TipRequest?
    case AwaitTip => true
    case Ended(m) => m.Tip?
    case Confused => true
    case _ => false
  }

  predicate Opened(p: Phase) {
    p.Talking? || p.Setting? || p.Finished?
  }

  lemma PurposeKept(s: State, a: Action, cid: nat)
    requires Apply(s, a).Some? && cid < |s.clis| && Opened(s.clis[cid].phase)
    ensures var t := Apply(s, a).value;
            && |t.clis| == |s.clis| && Opened(t.clis[cid].phase)
            && (Building(s.clis[cid].client) ==> Building(t.clis[cid].client))
            && (Asking(s.clis[cid].client) ==> Asking(t.clis[cid].client))
  {
  }

  lemma {:induction false} PurposeKeptOver(s: State, acts: seq<Action>, cid: nat)
    requires Run(s, acts).Some? && cid < |s.clis| && Opened(s.clis[cid].phase)
    ensures var t := Run(s, acts).value;
            && |t.clis| == |s.clis|
            && (Building(s.clis[cid].client) ==> Building(t.clis[cid].client))
            && (Asking(s.clis[cid].client) ==> Asking(t.clis[cid].client))
    decreases |acts|
  {
    if acts != [] {
      PurposeKept(s, acts[0], cid);
      PurposeKeptOver(Apply(s, acts[0]).value, acts[1..], cid);
    }
  }

  /** A build attempt ends on `SlotsBusy` or `BuildFinished`, a tip on `Tip`. */
  lemma AttemptsEndAsOpened(s0: State, before: seq<Action>, cid: nat, first: Message, after: seq<Action>)
    requires Run(s0, before).Some? && Apply(Run(s0, before).value, CliOpen(cid, first)).Some?
    requires Run(Apply(Run(s0, before).value, CliOpen(cid, first)).value, after).Some?
    ensures var t := Run(Apply(Run(s0, before).value, CliOpen(cid, first)).value, after).value;
            && cid < |t.clis|
            && (t.clis[cid].client.Ended? ==>
                  if first.Probe? then t.clis[cid].client.last.SlotsBusy? || t.clis[cid].client.last.BuildFinished?
                  else t.clis[cid].client.last.Tip?)
  {
    PurposeKeptOver(DoCliOpen(Run(s0, before).value, cid, first).value, after, cid);
  }

  /** The run `more` carries on from `s` without failing to where all is done. */
  ghost predicate Finishes(s: State, more: seq<Action>, healthy: bool) {
    && NoFailure(more) && Run(s, more).Some?
    && var t := Run(s, more).value;
    && |t.clis| == |s.clis| && Quiescent(t)
    && (forall c: nat | c < |t.clis| && t.clis[c].alive :: HeardOut(t.clis[c]))
    && (healthy ==> forall c: nat | c < |t.clis| :: t.clis[c].alive)
  }

  /** However a run went, with any number of CLIs queued and any failures behind
      it, it can be carried on without another failure until every CLI still
      alive is done; if nothing failed before, that is every CLI. */
  lemma EveryRunCanFinish(s0: State, acts: seq<Action>)
    requires Init(s0) && Run(s0, acts).Some?
    ensures |Run(s0, acts).value.clis| == |s0.clis|
    ensures exists more :: Finishes(Run(s0, acts).value, more, NoFailure(acts))
  {
    InitInv(s0);
    InvRun(s0, acts);
    CliCount(s0, acts);
    var s := Run(s0, acts).value;
    var more := Completes(s);
    InvRun(s, more);
    CliCount(s, more);
    QuiescentHeardOut(Run(s, more).value);
    if NoFailure(acts) {
      RunHealthy(s0, acts);
      RunHealthy(s, more);
    }
    assert Finishes(s, more, NoFailure(acts));
  }
}
