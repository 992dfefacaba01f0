/** The reference system: one CLI connected straight to one daemon thread by
    two FIFO wires. */
module Direct {
  import opened Wrappers
  import opened Protocol
  import opened Parties

  datatype Link = Link(client: Client, alive: bool, toDaemon: seq<Message>, toClient: seq<Message>, daemon: Daemon)

  datatype Act =
    | ClientSends(move: Move)
    | ClientReads
    | DaemonReads
    | DaemonSays(message: Message, outputs: nat)
    | ClientDies
    | Cut(delivered: nat)

  /** A daemon thread about to drop its slot guard has nothing left to do on
      the wire: seen from there it is back at its request loop. */
  function OnWire(d: Daemon): Daemon {
    if d.Releasing? then Loop else d
  }

  function Apply(s: Link, a: Act): Option<Link> {
    match a
    case ClientSends(move) =>
      var r := ClientSend(s.client, move);
      if s.alive && r.Some? then Some(s.(client := r.value.0, toDaemon := s.toDaemon + r.value.1)) else None
    case ClientReads =>
      if s.alive && s.toClient != [] then
        Some(s.(client := ClientRecv(s.client, s.toClient[0]), toClient := s.toClient[1..]))
      else None
    case DaemonReads =>
      if Listens(s.daemon) && s.toDaemon != [] then
        Some(s.(daemon := DaemonRecv(s.daemon, s.toDaemon[0]), toDaemon := s.toDaemon[1..]))
      else None
    case DaemonSays(m, outputs) =>
      var d := DaemonSay(s.daemon, m, outputs);
      if d.Some? then Some(s.(daemon := OnWire(d.value), toClient := s.toClient + [m])) else None
    case ClientDies => Some(s.(alive := false))
    case Cut(delivered) =>
      // The connection is lost: what was still on its way to the client may
      // arrive in part, nothing more reaches the daemon.
      if delivered <= |s.toClient| then
        Some(s.(daemon := Gone, toDaemon := [], toClient := s.toClient[..delivered]))
      else None
  }

  /** The state after a run, if every action of it was possible. */
  function Run(s: Link, acts: seq<Act>): Option<Link>
    decreases |acts|
  {
    if acts == [] then Some(s)
    else
      var t := Apply(s, acts[0]);
      if t.None? then None else Run(t.value, acts[1..])
  }

  lemma {:induction false} RunAppend(s: Link, a: seq<Act>, b: seq<Act>)
    requires Run(s, a).Some?
    ensures Run(s, a + b) == Run(Run(s, a).value, b)
    decreases |a|
  {
    if a == [] {
      assert a + b == b;
    } else {
      assert (a + b)[0] == a[0] && (a + b)[1..] == a[1..] + b;
      RunAppend(Apply(s, a[0]).value, a[1..], b);
    }
  }
}
