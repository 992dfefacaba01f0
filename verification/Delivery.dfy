/** A sync as its two ends have it together: what the client sends when it is
    asked for files, what the daemon makes of that, and what is in the slot
    afterwards. */
module Delivery {
  import opened Wrappers
  import opened Protocol
  import opened Parties
  import Sync

  /** What a client has sent, and where it stands, after some moves. */
  function Moved(c: Client, moves: seq<Move>): Option<(Client, seq<Message>)>
    decreases |moves|
  {
    if moves == [] then Some((c, []))
    else
      match ClientSend(c, moves[0])
      case None => None
      case Some((next, sent)) =>
        match Moved(next, moves[1..])
        case None => None
        case Some((last, more)) => Some((last, sent + more))
  }

  /** The client could read every file it came to, and `t` is what it read. */
  ghost predicate ReadsFrom(moves: seq<Move>, sent: seq<Message>, t: Sync.Tree) {
    && (forall mv <- moves :: mv.SendFile? ==> mv.contents.Some?)
    && (forall m <- sent :: m.FileData? && m.path in t ==> m.contents == t[m.path])
  }

  lemma {:induction false} StreamAnswers(left: seq<string>, moves: seq<Move>, sent: seq<Message>, t: Sync.Tree)
    requires Moved(Streaming(left), moves) == Some((AwaitAck, sent)) && ReadsFrom(moves, sent, t)
    requires forall p <- left :: p in t
    ensures Sync.Answers(sent, left, t)
    decreases |moves|
  {
    var mv := moves[0];
    assert forall m <- moves[1..] :: m in moves;
    if mv.SendFile? {
      var i, rest := mv.index, Moved(ClientSend(Streaming(left), mv).value.0, moves[1..]).value.1;
      var fewer := left[..i] + left[i + 1..];
      assert mv in moves;
      assert sent == [FileData(left[i], mv.contents.value)] + rest;
      forall p ensures p in left <==> p in fewer || p == left[i] { InTwo(left, i, p); }
      StreamAnswers(fewer, moves[1..], rest, t);
      OneMoreAnswer(left, i, fewer, FileData(left[i], mv.contents.value), rest, t);
    } else {
      NothingAfterDone(moves[1..]);
      assert sent == [SyncDone];
      assert sent[..|sent| - 1] == [];
    }
  }

  lemma InTwo(left: seq<string>, i: nat, p: string)
    requires i < |left|
    ensures p in left <==> p in left[..i] + left[i + 1..] || p == left[i]
  {
    assert left == left[..i] + [left[i]] + left[i + 1..];
  }

  lemma NothingAfterDone(moves: seq<Move>)
    requires Moved(AwaitAck, moves).Some?
    ensures moves == []
  {
  }

  lemma OneMoreAnswer(left: seq<string>, i: nat, fewer: seq<string>, first: Message, rest: seq<Message>, t: Sync.Tree)
    requires i < |left| && (forall p :: p in left <==> p in fewer || p == left[i])
    requires first.FileData? && first.path == left[i] && left[i] in t && first.contents == t[left[i]]
    requires Sync.Answers(rest, fewer, t)
    ensures Sync.Answers([first] + rest, left, t)
  {
    var msgs := [first] + rest;
    var files, others := msgs[..|msgs| - 1], rest[..|rest| - 1];
    assert files == [first] + others;
    forall p <- left ensures exists m <- files :: m.FileData? && m.path == p {
      if p == left[i] {
        assert first in files;
      } else {
        var m :| m in others && m.FileData? && m.path == p;
        assert m in files;
      }
    }
  }

  /** Asked for files, by an answer to its probe or to its manifest, a client
      that gets through its turn has sent every one of them as it has it, and
      nothing else, and said that it is done. */
  lemma ClientAnswers(c: Client, paths: seq<string>, moves: seq<Move>, sent: seq<Message>, t: Sync.Tree)
    requires c == AwaitProbe || c == AwaitNeed
    requires Moved(ClientRecv(c, NeedFiles(paths)), moves) == Some((AwaitAck, sent)) && ReadsFrom(moves, sent, t)
    requires forall p <- paths :: p in t
    ensures Sync.Answers(sent, paths, t)
  {
    StreamAnswers(paths, moves, sent, t);
  }

  /** Nothing else is ever sent: a file goes out only if it was asked for and
      could be read, with what was read, and each only as often as asked for. */
  lemma {:induction false} OnlyReadFilesSent(left: seq<string>, moves: seq<Move>)
    requires Moved(Streaming(left), moves).Some?
    ensures forall m <- Moved(Streaming(left), moves).value.1 :: m.FileData? ==>
              m.path in left && exists mv <- moves :: mv.SendFile? && mv.contents == Some(m.contents)
    ensures |Moved(Streaming(left), moves).value.1| <= |left| + 1
    decreases |moves|
  {
    if moves != [] {
      var mv := moves[0];
      var (next, first) := ClientSend(Streaming(left), mv).value;
      var rest := Moved(next, moves[1..]).value.1;
      assert forall x <- moves[1..] :: x in moves;
      if mv.SendFile? {
        var fewer := left[..mv.index] + left[mv.index + 1..];
        forall p ensures p in left <==> p in fewer || p == left[mv.index] { InTwo(left, mv.index, p); }
        OnlyReadFilesSent(fewer, moves[1..]);
        assert mv in moves;
        assert forall m <- first + rest :: m in first || m in rest;
      } else {
        NothingAfterDone(moves[1..]);
      }
    }
  }

  lemma ClientSendsOnlyWhatItRead(c: Client, paths: seq<string>, moves: seq<Move>)
    requires (c == AwaitProbe || c == AwaitNeed) && Moved(ClientRecv(c, NeedFiles(paths)), moves).Some?
    ensures forall m <- Moved(ClientRecv(c, NeedFiles(paths)), moves).value.1 :: m.FileData? ==>
              m.path in paths && exists mv <- moves :: mv.SendFile? && mv.contents == Some(m.contents)
    ensures |Moved(ClientRecv(c, NeedFiles(paths)), moves).value.1| <= |paths| + 1
  {
    OnlyReadFilesSent(paths, moves);
  }

  /** However many files it had to skip, the daemon takes its turn for a whole one:
      a sync is acknowledged although files are missing. */
  lemma {:induction false} SkippingIsNotNoticed(left: seq<string>, moves: seq<Move>, sent: seq<Message>, t: Sync.Tree)
    requires Moved(Streaming(left), moves) == Some((AwaitAck, sent))
    ensures Sync.ReceiveFiles(t, sent).outcome.Synced? && Sync.ReceiveFiles(t, sent).rest == []
    decreases |moves|
  {
    var mv := moves[0];
    if mv.SendFile? {
      var (next, first) := ClientSend(Streaming(left), mv).value;
      var rest := Moved(next, moves[1..]).value.1;
      assert sent == first + rest;
      if mv.contents.Some? {
        assert sent[1..] == rest;
        SkippingIsNotNoticed(left[..mv.index] + left[mv.index + 1..], moves[1..], rest, t[left[mv.index] := mv.contents.value]);
      } else {
        assert sent == rest;
        SkippingIsNotNoticed(left[..mv.index] + left[mv.index + 1..], moves[1..], rest, t);
      }
    } else {
      NothingAfterDone(moves[1..]);
      assert sent == [SyncDone] && sent[1..] == [];
    }
  }

  /** It can always get through, in any order it likes: here from the front. */
  lemma {:induction false} ClientCanAnswer(c: Client, paths: seq<string>, t: Sync.Tree) returns (moves: seq<Move>, sent: seq<Message>)
    requires (c == AwaitProbe || c == AwaitNeed) && forall p <- paths :: p in t
    ensures Moved(ClientRecv(c, NeedFiles(paths)), moves) == Some((AwaitAck, sent)) && ReadsFrom(moves, sent, t)
    decreases |paths|
  {
    if paths == [] {
      moves, sent := [SendDone], [SyncDone];
      assert moves[1..] == [] && [SyncDone] + [] == sent;
      assert Moved(AwaitAck, moves[1..]) == Some((AwaitAck, []));
    } else {
      assert paths == [paths[0]] + paths[1..];
      var more, others := ClientCanAnswer(c, paths[1..], t);
      var mv, m := SendFile(0, Some(t[paths[0]])), FileData(paths[0], t[paths[0]]);
      moves, sent := [mv] + more, [m] + others;
      assert moves[1..] == more && paths[..0] + paths[0 + 1..] == paths[1..];
      assert ClientSend(Streaming(paths), mv) == Some((Streaming(paths[1..]), [m]));
    }
  }

  /** The daemon after reading messages one by one. */
  function Hears(d: Daemon, ms: seq<Message>): Daemon
    decreases |ms|
  {
    if ms == [] then d else Hears(DaemonRecv(d, ms[0]), ms[1..])
  }

  function WhereItEnds(outcome: Sync.Outcome): Daemon {
    match outcome
    case Synced => Acking
    case ClientClosed => Receiving
    case UnexpectedMessage => Unexpected
  }

  function Consumed(inbox: seq<Message>, rest: seq<Message>): seq<Message>
    requires |rest| <= |inbox|
  {
    inbox[..|inbox| - |rest|]
  }

  lemma ConsumedMore(inbox: seq<Message>, rest: seq<Message>)
    requires inbox != [] && |rest| <= |inbox| - 1 && inbox[1..] == Consumed(inbox[1..], rest) + rest
    ensures Consumed(inbox, rest) == [inbox[0]] + Consumed(inbox[1..], rest) && inbox == Consumed(inbox, rest) + rest
    ensures inbox[0].FileData? ==> Hears(Receiving, Consumed(inbox, rest)) == Hears(Receiving, Consumed(inbox[1..], rest))
  {
    assert Consumed(inbox, rest)[1..] == Consumed(inbox[1..], rest);
  }

  /** Receiving reads a front part of the stream, and leaves the thread where the
      protocol has it after those messages. */
  lemma {:induction false} ReceiptIsHearing(t: Sync.Tree, inbox: seq<Message>)
    ensures var r := Sync.ReceiveFiles(t, inbox);
            && |r.rest| <= |inbox| && inbox == Consumed(inbox, r.rest) + r.rest
            && Hears(Receiving, Consumed(inbox, r.rest)) == WhereItEnds(r.outcome)
    decreases |inbox|
  {
    var r := Sync.ReceiveFiles(t, inbox);
    if inbox != [] {
      if inbox[0].FileData? {
        ReceiptIsHearing(t[inbox[0].path := inbox[0].contents], inbox[1..]);
        ConsumedMore(inbox, r.rest);
      } else {
        assert Consumed(inbox, r.rest) == [inbox[0]] && [inbox[0]][1..] == [];
        assert inbox == [inbox[0]] + inbox[1..];
      }
    }
  }

  /** The daemon's side of a speculative sync is the protocol's: it says what
      the protocol lets it say, and stands where the protocol has it. */
  lemma SpeculationIsProtocol(
      t: Sync.Tree, probe: Message, inbox: seq<Message>, hash: Bytes -> Digest, outputs: nat)
    requires probe.Probe? && probe.speculative.Some?
    ensures var r := Sync.SpeculativeSync(t, inbox, probe.speculative.value, hash);
            if r.sent[0].SyncAck? then
              r.outcome.Synced? && r.rest == inbox && DaemonSay(Deciding(probe), SyncAck, outputs) == Some(BuildRunning(outputs))
            else
              && DaemonSay(Deciding(probe), r.sent[0], outputs) == Some(Receiving)
              && |r.rest| <= |inbox| && Hears(Receiving, Consumed(inbox, r.rest)) == WhereItEnds(r.outcome)
              && (r.outcome.Synced? ==> r.sent[1..] == [SyncAck] && DaemonSay(Acking, SyncAck, outputs) == Some(BuildRunning(outputs)))
  {
    var spec := probe.speculative.value;
    var bundled := Sync.ApplyOps(t, Sync.Puts(spec.files));
    Sync.SpeculationAcknowledges(t, inbox, spec, hash);
    ReceiptIsHearing(bundled - Sync.StalePaths(spec.manifest, Sync.LocalManifest(bundled, hash)), inbox);
  }

  /** So is that of a legacy sync. */
  lemma LegacyIsProtocol(t: Sync.Tree, probe: Message, inbox: seq<Message>, hash: Bytes -> Digest, outputs: nat)
    requires probe.Probe? && probe.speculative.None? && inbox != [] && inbox[0].Manifest?
    ensures var r := Sync.LegacySync(t, inbox, hash);
            && |r.sent| >= 2 && DaemonSay(Deciding(probe), r.sent[0], outputs) == Some(AwaitManifest)
            && DaemonRecv(AwaitManifest, inbox[0]) == Planning && DaemonSay(Planning, r.sent[1], outputs) == Some(Receiving)
            && |r.rest| < |inbox| && Hears(Receiving, Consumed(inbox[1..], r.rest)) == WhereItEnds(r.outcome)
            && (r.outcome.Synced? ==> r.sent[2..] == [SyncAck] && DaemonSay(Acking, SyncAck, outputs) == Some(BuildRunning(outputs)))
  {
    Sync.LegacyAcknowledges(t, inbox, hash);
    LegacyReceipt(t, inbox, hash);
  }

  lemma LegacyReceipt(t: Sync.Tree, inbox: seq<Message>, hash: Bytes -> Digest)
    requires inbox != [] && inbox[0].Manifest?
    ensures var r := Sync.LegacySync(t, inbox, hash);
            |r.rest| < |inbox| && Hears(Receiving, Consumed(inbox[1..], r.rest)) == WhereItEnds(r.outcome)
  {
    var client, local := inbox[0].entries, Sync.LocalManifest(t, hash);
    ReceiptIsHearing(t - Sync.StalePaths(client, local), inbox[1..]);
  }

  /** Without a sync: a fingerprint that matches leads both ends to the build, a
      full daemon leads the client away and the daemon back to listening. */
  lemma NoSyncIsProtocol(probe: Message, outputs: nat)
    ensures DaemonSay(Deciding(probe), ProbeAccepted, outputs) == Some(BuildRunning(outputs))
    ensures Follow(AwaitProbe, [ProbeAccepted]) == Building
    ensures DaemonSay(Deciding(probe), SlotsBusy, outputs) == Some(Loop)
    ensures Follow(AwaitProbe, [SlotsBusy]) == Ended(SlotsBusy)
  {
    assert [ProbeAccepted][1..] == [] && [SlotsBusy][1..] == [];
  }

  /** The daemon after saying messages one by one, if it may. */
  function Says(d: Daemon, ms: seq<Message>, outputs: nat): Option<Daemon>
    decreases |ms|
  {
    if ms == [] then Some(d)
    else
      match DaemonSay(d, ms[0], outputs)
      case None => None
      case Some(next) => Says(next, ms[1..], outputs)
  }

  /** A build's last word comes after all of its output and nothing else, and the
      client that hears it through has the last word last. */
  lemma {:induction false} BuildForwardsAll(n: nat, ms: seq<Message>, outputs: nat)
    requires Says(BuildRunning(n), ms, outputs) == Some(Releasing)
    ensures |ms| == n + 1 && ms[n].BuildFinished? && forall i | 0 <= i < n :: IsOutput(ms[i])
    ensures Follow(Building, ms) == Ended(ms[n])
    decreases |ms|
  {
    if IsOutput(ms[0]) {
      BuildForwardsAll(n - 1, ms[1..], outputs);
      assert forall i | 0 < i < |ms| :: ms[i] == ms[1..][i - 1];
    } else {
      assert ms[1..] == [];
    }
  }

  /** What the client does on hearing `m`: `inbox` is what it sends. */
  ghost predicate Replies(c: Client, m: Message, moves: seq<Move>, inbox: seq<Message>, next: Client, t: Sync.Tree) {
    && Expects(c, m)
    && Moved(ClientRecv(c, m), moves) == Some((next, inbox)) && next.Waits() && ReadsFrom(moves, inbox, t)
  }

  /** A speculative sync from end to end, with nothing assumed of the client but
      that it runs: whatever was in the slot and whatever was bundled, the sync
      finishes with the client's sources, and the client goes on to the build. */
  lemma SpeculationDelivers(
      t: Sync.Tree, spec: SpeculativeSync, moves: seq<Move>, inbox: seq<Message>, next: Client, c: Sync.Tree, hash: Bytes -> Digest)
    requires Sync.CollisionFree(hash) && Sync.ManifestOf(spec.manifest, c, hash)
    requires Replies(AwaitProbe, Sync.SpeculativeSync(t, inbox, spec, hash).sent[0], moves, inbox, next, c)
    ensures var r := Sync.SpeculativeSync(t, inbox, spec, hash);
            && r.outcome.Synced? && r.rest == [] && Sync.Sources(r.tree) == Sync.Sources(c)
            && Follow(next, r.sent[1..]) == Building
  {
    var needed := Sync.NeededFiles(spec.manifest, Sync.LocalManifest(Sync.ApplyOps(t, Sync.Puts(spec.files)), hash));
    var first := Sync.SpeculativeSync(t, inbox, spec, hash).sent[0];
    Sync.SpeculationAcknowledges(t, inbox, spec, hash);
    assert first == if needed == [] then SyncAck else NeedFiles(needed);
    if needed == [] {
      NothingToSay(moves);
    } else {
      AnsweredWhole(AwaitProbe, needed, moves, inbox, next, c);
      AckedBuilds();
    }
    SpeculationEnds(t, spec, inbox, c, hash);
    var r := Sync.SpeculativeSync(t, inbox, spec, hash);
    assert r.sent[1..] == if needed == [] then [] else [SyncAck];
  }

  lemma AnsweredWhole(c: Client, needed: seq<string>, moves: seq<Move>, inbox: seq<Message>, next: Client, t: Sync.Tree)
    requires (c == AwaitProbe || c == AwaitNeed) && Replies(c, NeedFiles(needed), moves, inbox, next, t)
    requires forall p <- needed :: p in t
    ensures next == AwaitAck && Sync.Answers(inbox, needed, t)
  {
    UntilDone(needed, moves);
    ClientAnswers(c, needed, moves, inbox, t);
  }

  lemma SpeculationEnds(t: Sync.Tree, spec: SpeculativeSync, inbox: seq<Message>, c: Sync.Tree, hash: Bytes -> Digest)
    requires Sync.CollisionFree(hash) && Sync.ManifestOf(spec.manifest, c, hash)
    requires var needed := Sync.NeededFiles(spec.manifest, Sync.LocalManifest(Sync.ApplyOps(t, Sync.Puts(spec.files)), hash));
             if needed == [] then inbox == [] else Sync.Answers(inbox, needed, c)
    ensures var r := Sync.SpeculativeSync(t, inbox, spec, hash);
            r.outcome.Synced? && r.rest == [] && Sync.Sources(r.tree) == Sync.Sources(c)
  {
    assert inbox + [] == inbox;
    Sync.SpeculationConverges(t, spec, inbox, [], c, hash);
  }

  lemma NothingToSay(moves: seq<Move>)
    requires Moved(Building, moves).Some?
    ensures moves == []
  {
  }

  lemma {:induction false} UntilDone(left: seq<string>, moves: seq<Move>)
    requires Moved(Streaming(left), moves).Some? && Moved(Streaming(left), moves).value.0.Waits()
    ensures Moved(Streaming(left), moves).value.0 == AwaitAck
    decreases |moves|
  {
    if moves[0].SendFile? {
      var i := moves[0].index;
      UntilDone(left[..i] + left[i + 1..], moves[1..]);
    } else {
      NothingAfterDone(moves[1..]);
    }
  }

  /** And a legacy sync, whose client is asked for its manifest first. */
  lemma LegacyDelivers(
      t: Sync.Tree, manifest: Message, moves: seq<Move>, files: seq<Message>, next: Client, c: Sync.Tree, hash: Bytes -> Digest)
    requires Sync.CollisionFree(hash) && manifest.Manifest? && Sync.ManifestOf(manifest.entries, c, hash)
    requires Replies(AwaitNeed, Sync.LegacySync(t, [manifest] + files, hash).sent[1], moves, files, next, c)
    ensures var r := Sync.LegacySync(t, [manifest] + files, hash);
            && Follow(AwaitProbe, r.sent[..1]) == SendingManifest && ClientSend(SendingManifest, SendManifest(manifest)) == Some((AwaitNeed, [manifest]))
            && r.outcome.Synced? && r.rest == [] && Sync.Sources(r.tree) == Sync.Sources(c)
            && Follow(next, r.sent[2..]) == Building
  {
    var needed := Sync.NeededFiles(manifest.entries, Sync.LocalManifest(t, hash));
    Sync.LegacyAcknowledges(t, [manifest] + files, hash);
    assert ([manifest] + files)[1..] == files;
    AskedForManifest(manifest);
    var r := Sync.LegacySync(t, [manifest] + files, hash);
    assert r.sent[..1] == [ProbeMiss] && r.sent[2..] == if r.outcome.Synced? then [SyncAck] else [];
    AckedBuilds();
    AnsweredWhole(AwaitNeed, needed, moves, files, next, c);
    LegacyEnds(t, manifest, files, c, hash);
  }

  lemma AskedForManifest(manifest: Message)
    requires manifest.Manifest?
    ensures Follow(AwaitProbe, [ProbeMiss]) == SendingManifest
    ensures ClientSend(SendingManifest, SendManifest(manifest)) == Some((AwaitNeed, [manifest]))
  {
    assert [ProbeMiss][1..] == [];
  }

  lemma AckedBuilds()
    ensures Follow(AwaitAck, [SyncAck]) == Building
  {
    assert [SyncAck][1..] == [];
  }

  lemma LegacyEnds(t: Sync.Tree, manifest: Message, files: seq<Message>, c: Sync.Tree, hash: Bytes -> Digest)
    requires Sync.CollisionFree(hash) && manifest.Manifest? && Sync.ManifestOf(manifest.entries, c, hash)
    requires Sync.Answers(files, Sync.NeededFiles(manifest.entries, Sync.LocalManifest(t, hash)), c)
    ensures var r := Sync.LegacySync(t, [manifest] + files, hash);
            r.outcome.Synced? && r.rest == [] && Sync.Sources(r.tree) == Sync.Sources(c)
  {
    assert [manifest] + files + [] == [manifest] + files;
    Sync.LegacyConverges(t, manifest.team, manifest.scope, manifest.entries, files, [], c, hash);
  }
}
