/** The two ends of a session: what the CLI does on its connection, and what
    one daemon thread does on its WebSocket. Neither knows whether an agent
    sits in between. */
module Parties {
  import opened Wrappers
  import opened Protocol

  /** Where the CLI stands in `attempt_build` or `print_tip`. `Confused` is the
      branch taken on a message that was not expected. */
  datatype Client =
    | Opening(first: Message)
    | AwaitProbe
    | SendingManifest
    | AwaitNeed
    | Streaming(left: seq<string>)
    | AwaitAck
    | Building
    | AwaitTip
    | Ended(last: Message)
    | Confused
  {
    /** The CLI is blocked reading. */
    predicate Waits() {
      AwaitProbe? || AwaitNeed? || AwaitAck? || Building? || AwaitTip?
    }

    /** The CLI will send something next. */
    predicate Speaks() {
      Opening? || SendingManifest? || Streaming?
    }
  }

  /** What the CLI may do when it is its turn to send. A file that cannot be
      read is skipped; the files of one request go out in any order. */
  datatype Move =
    | SendFirst
    | SendManifest(manifest: Message)
    | SendFile(index: nat, contents: Option<Bytes>)
    | SendDone

  predicate Starts(m: Message) {
    m.Probe? || m.TipRequest?
  }

  function AfterFirst(first: Message): Client {
    if first.Probe? then AwaitProbe else AwaitTip
  }

  function ClientSend(c: Client, mv: Move): Option<(Client, seq<Message>)> {
    match (c, mv)
    case (Opening(first), SendFirst) => Some((AfterFirst(first), [first]))
    case (SendingManifest, SendManifest(m)) => if m.Manifest? then Some((AwaitNeed, [m])) else None
    case (Streaming(left), SendFile(i, contents)) =>
      if i >= |left| then None
      else
        var sent := if contents.Some? then [FileData(left[i], contents.value)] else [];
        Some((Streaming(left[..i] + left[i + 1..]), sent))
    case (Streaming(left), SendDone) => if left == [] then Some((AwaitAck, [SyncDone])) else None
    case _ => None
  }

  function ClientRecv(c: Client, m: Message): Client {
    match c
    case AwaitProbe =>
      (match m
       case ProbeAccepted => Building
       case SyncAck => Building
       case NeedFiles(paths) => Streaming(paths)
       case ProbeMiss => SendingManifest
       case SlotsBusy => Ended(m)
       case _ => Confused)
    case AwaitNeed =>
      (match m
       case NeedFiles(paths) => Streaming(paths)
       case SlotsBusy => Ended(m)
       case _ => Confused)
    case AwaitAck => if m.SyncAck? then Building else Confused
    case Building => if m.BuildFinished? then Ended(m) else Building
    case AwaitTip => if m.Tip? then Ended(m) else Confused
    case _ => Confused
  }

  predicate IsOutput(m: Message) {
    m.BuildStdout? || m.BuildStderr? || m.Executable?
  }

  /** `m` is handled by a branch written for it: neither the error branch nor
      the catch-all that drops a message while a build is running. */
  predicate Expects(c: Client, m: Message) {
    if c.Building? then IsOutput(m) || m.BuildFinished?
    else !ClientRecv(c, m).Confused?
  }

  /** One daemon thread, between `recv_msg` calls. `Building` carries how many
      output messages are still to be forwarded; `Releasing` is the drop of
      the slot guard after the last word. */
  datatype Daemon =
    | Loop
    | Deciding(probe: Message)
    | Tipping
    | AwaitManifest
    | Planning
    | Receiving
    | Acking
    | BuildRunning(outputs: nat)
    | Releasing
    | Unexpected
    | Gone

  predicate Listens(d: Daemon) {
    d.Loop? || d.AwaitManifest? || d.Receiving?
  }

  function DaemonRecv(d: Daemon, m: Message): Daemon {
    match d
    case Loop => if m.Probe? then Deciding(m) else if m.TipRequest? then Tipping else Unexpected
    case AwaitManifest => if m.Manifest? then Planning else Unexpected
    case Receiving => if m.FileData? then Receiving else if m.SyncDone? then Acking else Unexpected
    case _ => Unexpected
  }

  /** The state after the daemon says `m`, if it may say it. `outputs` is the
      length of the build output when `m` starts a build. */
  function DaemonSay(d: Daemon, m: Message, outputs: nat): Option<Daemon> {
    match d
    case Deciding(probe) =>
      if m.SlotsBusy? then Some(Loop)
      else if m.ProbeAccepted? then Some(BuildRunning(outputs))
      else if probe.Probe? && probe.speculative.Some? then
        if m.SyncAck? then Some(BuildRunning(outputs))
        else if m.NeedFiles? && m.paths != [] then Some(Receiving)
        else None
      else if m.ProbeMiss? then Some(AwaitManifest)
      else None
    case Tipping => if m.Tip? then Some(Loop) else None
    case Planning => if m.NeedFiles? then Some(Receiving) else None
    case Acking => if m.SyncAck? then Some(BuildRunning(outputs)) else None
    case BuildRunning(left) =>
      if IsOutput(m) && left > 0 then Some(BuildRunning(left - 1))
      else if m.BuildFinished? && left == 0 then Some(Releasing)
      else None
    case _ => None
  }

  /** The client after reading all of `ms`, every message being expected. */
  function Follow(c: Client, ms: seq<Message>): Client
    decreases |ms|
  {
    if ms == [] then c
    else if Expects(c, ms[0]) then Follow(ClientRecv(c, ms[0]), ms[1..])
    else Confused
  }

  lemma {:induction false} FollowAppend(c: Client, a: seq<Message>, b: seq<Message>)
    ensures Follow(c, a + b) == Follow(Follow(c, a), b)
    decreases |a|
  {
    if a == [] {
      assert a + b == b;
    } else {
      assert (a + b)[0] == a[0] && (a + b)[1..] == a[1..] + b;
      if Expects(c, a[0]) {
        FollowAppend(ClientRecv(c, a[0]), a[1..], b);
      } else {
        FollowConfused(b);
      }
    }
  }

  lemma FollowConfused(ms: seq<Message>)
    ensures Follow(Confused, ms) == Confused
  {
  }

  predicate AllFiles(ms: seq<Message>) {
    forall m <- ms :: m.FileData?
  }

  /** Everything both ends and the wires between them can look like at once:
      `v` is the client once it has read all that is on its way, `wire` all
      that is on its way to the daemon. */
  predicate Joint(v: Client, wire: seq<Message>, d: Daemon) {
    match v
    case Opening(first) => Starts(first) && wire == [] && (d.Loop? || d.Releasing?)
    case AwaitProbe =>
      || (|wire| == 1 && wire[0].Probe? && (d.Loop? || d.Releasing?))
      || (wire == [] && d.Deciding? && d.probe.Probe?)
    case SendingManifest => wire == [] && d.AwaitManifest?
    case AwaitNeed =>
      || (|wire| == 1 && wire[0].Manifest? && d.AwaitManifest?)
      || (wire == [] && d.Planning?)
    case Streaming(_) => AllFiles(wire) && d.Receiving?
    case AwaitAck =>
      || (wire != [] && AllFiles(wire[..|wire| - 1]) && wire[|wire| - 1].SyncDone? && d.Receiving?)
      || (wire == [] && d.Acking?)
    case Building => wire == [] && d.BuildRunning?
    case AwaitTip =>
      || (|wire| == 1 && wire[0].TipRequest? && (d.Loop? || d.Releasing?))
      || (wire == [] && d.Tipping?)
    case Ended(_) => wire == [] && (d.Loop? || d.Releasing?)
    case Confused => false
  }

  /** The client sending keeps the picture consistent. */
  lemma JointClientSend(c: Client, down: seq<Message>, wire: seq<Message>, d: Daemon, mv: Move)
    requires ClientSend(c, mv).Some?
    requires Joint(Follow(c, down), wire, d)
    ensures down == []
    ensures var (c', sent) := ClientSend(c, mv).value; Joint(c', wire + sent, d)
  {
  }

  /** The daemon reading its next message finds one it expects. */
  lemma JointDaemonRecv(v: Client, wire: seq<Message>, d: Daemon)
    requires Joint(v, wire, d) && wire != [] && Listens(d)
    ensures Joint(v, wire[1..], DaemonRecv(d, wire[0]))
  {
    if v.AwaitAck? && |wire| > 1 {
      assert wire[1..][..|wire[1..]| - 1] == wire[..|wire| - 1][1..];
      assert wire[0] == wire[..|wire| - 1][0];
    }
  }

  /** Whatever the daemon says next, the client will expect it. */
  lemma JointDaemonSay(v: Client, wire: seq<Message>, d: Daemon, m: Message, outputs: nat)
    requires Joint(v, wire, d) && DaemonSay(d, m, outputs).Some?
    ensures wire == [] && Expects(v, m)
    ensures Joint(ClientRecv(v, m), wire, DaemonSay(d, m, outputs).value)
  {
  }

  /** Exactly the messages that end a session end the client's exchange. */
  lemma EndersEnd(c: Client, m: Message)
    requires Expects(c, m)
    ensures ClientRecv(c, m).Ended? <==> m.EndsSession()
    ensures ClientRecv(c, m).Speaks() <==> m.YieldsToClient()
    ensures ClientRecv(c, m).Ended? ==> ClientRecv(c, m).last == m
  {
  }
}
