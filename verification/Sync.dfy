/** Bringing a slot's source tree up to date with a client's. A workspace is a
    flat map from relative path to contents; build artifacts live under
    `target` and are never looked at. */
module Sync {
  import opened Wrappers
  import opened Protocol
  import Strings

  type Tree = map<string, Bytes>

  /** Some component of the path is `target`. */
  predicate UnderTarget(path: string) {
    "target" in Strings.Split(path, '/')
  }

  /** A folder of that name hides what is in it, wherever it stands; a file of that
      name hides itself, and nothing else is hidden. */
  lemma UnderTargetIs(above: string, below: string)
    ensures UnderTarget(above + ['/'] + below) <==> UnderTarget(above) || UnderTarget(below)
    ensures '/' !in below ==> (UnderTarget(below) <==> below == "target")
  {
    Strings.SplitConcat(above, '/', below);
    if '/' !in below { Strings.SplitNone(below, '/'); }
  }

  /** The part of a workspace that a sync is about. */
  function Sources(t: Tree): Tree {
    map p | p in t && !UnderTarget(p) :: t[p]
  }

  datatype FileOp = Put(path: string, contents: Bytes) | Remove(path: string)

  function ApplyOp(t: Tree, op: FileOp): Tree {
    match op
    case Put(p, contents) => t[p := contents]
    case Remove(p) => t - {p}
  }

  function ApplyOps(t: Tree, ops: seq<FileOp>): Tree
    decreases |ops|
  {
    if ops == [] then t else ApplyOps(ApplyOp(t, ops[0]), ops[1..])
  }

  lemma {:induction false} ApplyOpsAppend(t: Tree, a: seq<FileOp>, b: seq<FileOp>)
    ensures ApplyOps(t, a + b) == ApplyOps(ApplyOps(t, a), b)
    decreases |a|
  {
    if a == [] {
      assert a + b == b;
    } else {
      assert (a + b)[0] == a[0] && (a + b)[1..] == a[1..] + b;
      ApplyOpsAppend(ApplyOp(t, a[0]), a[1..], b);
    }
  }

  function Puts(files: seq<(string, Bytes)>): seq<FileOp> {
    seq(|files|, i requires 0 <= i < |files| => Put(files[i].0, files[i].1))
  }

  /** `local_manifest`: the hashes of everything outside `target`. */
  function LocalManifest(t: Tree, hash: Bytes -> Digest): map<string, Digest> {
    map p | p in t && !UnderTarget(p) :: hash(t[p])
  }

  function NeededFiles(client: seq<FileEntry>, local: map<string, Digest>): (needed: seq<string>)
    ensures forall p :: p in needed <==>
              exists f <- client :: f.path == p && !(p in local && local[p] == f.hash)
  {
    if client == [] then []
    else
      var f := client[0];
      var rest := NeededFiles(client[1..], local);
      assert client == [f] + client[1..];
      if f.path in local && local[f.path] == f.hash then rest else [f.path] + rest
  }

  function StalePaths(client: seq<FileEntry>, local: map<string, Digest>): set<string> {
    set p | p in local && forall f <- client :: f.path != p
  }

  datatype Outcome = Synced | ClientClosed | UnexpectedMessage

  /** What a sync leaves behind: the tree, the messages not read, the messages
      sent, and how it ended. */
  datatype Sent = Sent(tree: Tree, rest: seq<Message>, sent: seq<Message>, outcome: Outcome)

  function ReceiveFiles(t: Tree, inbox: seq<Message>): Sent
    decreases |inbox|
  {
    if inbox == [] then Sent(t, [], [], ClientClosed)
    else match inbox[0]
      case FileData(path, contents) => ReceiveFiles(t[path := contents], inbox[1..])
      case SyncDone => Sent(t, inbox[1..], [], Synced)
      case _ => Sent(t, inbox[1..], [], UnexpectedMessage)
  }

  /** `NeedFiles` out, the files in, `SyncAck` out. */
  function Fetch(t: Tree, inbox: seq<Message>, needed: seq<string>): Sent {
    var r := ReceiveFiles(t, inbox);
    r.(sent := [NeedFiles(needed)] + if r.outcome.Synced? then [SyncAck] else [])
  }

  function SpeculativeSync(t: Tree, inbox: seq<Message>, spec: SpeculativeSync, hash: Bytes -> Digest): Sent {
    var bundled := ApplyOps(t, Puts(spec.files));
    var local := LocalManifest(bundled, hash);
    var needed := NeededFiles(spec.manifest, local);
    var cleaned := bundled - StalePaths(spec.manifest, local);
    if needed == [] then Sent(cleaned, inbox, [SyncAck], Synced) else Fetch(cleaned, inbox, needed)
  }

  function LegacySync(t: Tree, inbox: seq<Message>, hash: Bytes -> Digest): Sent {
    if inbox == [] then Sent(t, [], [ProbeMiss], ClientClosed)
    else if !inbox[0].Manifest? then Sent(t, inbox[1..], [ProbeMiss], UnexpectedMessage)
    else
      var client := inbox[0].entries;
      var local := LocalManifest(t, hash);
      var r := Fetch(t - StalePaths(client, local), inbox[1..], NeededFiles(client, local));
      r.(sent := [ProbeMiss] + r.sent)
  }

  /** Files only, and then the end of the sync at `k`. */
  predicate DoneAt(inbox: seq<Message>, k: int) {
    0 <= k < |inbox| && inbox[k].SyncDone? && forall i | 0 <= i < k :: inbox[i].FileData?
  }

  predicate StrayAt(inbox: seq<Message>, k: int) {
    0 <= k < |inbox| && !inbox[k].SyncDone? && !inbox[k].FileData? && forall i | 0 <= i < k :: inbox[i].FileData?
  }

  /** Exactly how receiving ends: well if the client says that it is done after
      nothing but files, unfinished if the stream ends after nothing but files,
      and with an error if anything else comes. */
  lemma {:induction false} ReceiptEnds(t: Tree, inbox: seq<Message>)
    ensures ReceiveFiles(t, inbox).outcome.Synced? <==> exists k :: DoneAt(inbox, k)
    ensures ReceiveFiles(t, inbox).outcome.ClientClosed? <==> forall m <- inbox :: m.FileData?
    ensures ReceiveFiles(t, inbox).outcome.UnexpectedMessage? <==> exists k :: StrayAt(inbox, k)
    decreases |inbox|
  {
    if inbox != [] && inbox[0].FileData? {
      var rest := inbox[1..];
      ReceiptEnds(t[inbox[0].path := inbox[0].contents], rest);
      assert inbox == [inbox[0]] + rest;
      forall k ensures DoneAt(rest, k) ==> DoneAt(inbox, k + 1) && k + 1 > 0 {}
      forall k ensures DoneAt(inbox, k) ==> DoneAt(rest, k - 1) { OneLess(inbox, k); }
      forall k ensures StrayAt(rest, k) ==> StrayAt(inbox, k + 1) && k + 1 > 0 {}
      forall k ensures StrayAt(inbox, k) ==> StrayAt(rest, k - 1) { OneLess(inbox, k); }
    } else if inbox != [] {
      assert inbox[0] in inbox;
      assert DoneAt(inbox, 0) || StrayAt(inbox, 0);
    }
  }

  lemma OneLess(inbox: seq<Message>, k: int)
    requires inbox != [] && inbox[0].FileData?
    ensures DoneAt(inbox, k) ==> DoneAt(inbox[1..], k - 1)
    ensures StrayAt(inbox, k) ==> StrayAt(inbox[1..], k - 1)
  {
    assert forall i | 0 <= i < |inbox| - 1 :: inbox[1..][i] == inbox[i + 1];
  }

  /** A sync is acknowledged exactly when it has finished. */
  lemma FetchAcknowledges(t: Tree, inbox: seq<Message>, needed: seq<string>)
    ensures var r := Fetch(t, inbox, needed);
            && (r.outcome.Synced? <==> exists k :: DoneAt(inbox, k))
            && (r.outcome.ClientClosed? <==> forall m <- inbox :: m.FileData?)
            && r.sent == if r.outcome.Synced? then [NeedFiles(needed), SyncAck] else [NeedFiles(needed)]
  {
    ReceiptEnds(t, inbox);
  }

  lemma SpeculationAcknowledges(t: Tree, inbox: seq<Message>, spec: Protocol.SpeculativeSync, hash: Bytes -> Digest)
    ensures var r := SpeculativeSync(t, inbox, spec, hash);
            var needed := NeededFiles(spec.manifest, LocalManifest(ApplyOps(t, Puts(spec.files)), hash));
            && (SyncAck in r.sent <==> r.outcome.Synced?)
            && (r.outcome.Synced? <==> needed == [] || exists k :: DoneAt(inbox, k))
            && (r.outcome.ClientClosed? <==> needed != [] && forall m <- inbox :: m.FileData?)
            && r.sent == (if needed == [] then [] else [NeedFiles(needed)]) + if r.outcome.Synced? then [SyncAck] else []
  {
    var local := LocalManifest(ApplyOps(t, Puts(spec.files)), hash);
    FetchAcknowledges(ApplyOps(t, Puts(spec.files)) - StalePaths(spec.manifest, local), inbox, NeededFiles(spec.manifest, local));
  }

  lemma LegacyAcknowledges(t: Tree, inbox: seq<Message>, hash: Bytes -> Digest)
    ensures var r := LegacySync(t, inbox, hash);
            && (SyncAck in r.sent <==> r.outcome.Synced?)
            && (r.outcome.Synced? <==> inbox != [] && inbox[0].Manifest? && exists k :: DoneAt(inbox[1..], k))
            && (r.outcome.ClientClosed? <==> inbox == [] || (inbox[0].Manifest? && forall m <- inbox[1..] :: m.FileData?))
            && (inbox != [] && inbox[0].Manifest? ==>
                  r.sent == [ProbeMiss, NeedFiles(NeededFiles(inbox[0].entries, LocalManifest(t, hash)))]
                            + if r.outcome.Synced? then [SyncAck] else [])
  {
    if inbox != [] && inbox[0].Manifest? {
      var client, local := inbox[0].entries, LocalManifest(t, hash);
      FetchAcknowledges(t - StalePaths(client, local), inbox[1..], NeededFiles(client, local));
    }
  }

  /** Digests tell contents apart. */
  ghost predicate CollisionFree(hash: Bytes -> Digest) {
    forall a, b :: hash(a) == hash(b) ==> a == b
  }

  /** `entries` lists the client's tree `c` and nothing else. */
  ghost predicate ManifestOf(entries: seq<FileEntry>, c: Tree, hash: Bytes -> Digest) {
    && (forall f <- entries :: f.path in c && f.hash == hash(c[f.path]))
    && (forall p <- c :: exists f <- entries :: f.path == p)
  }

  /** A client that still has tree `c` answers a request for `needed`: each
      file once or more, in any order, then `SyncDone`. */
  ghost predicate Answers(msgs: seq<Message>, needed: seq<string>, c: Tree) {
    && msgs != []
    && msgs[|msgs| - 1].SyncDone?
    && (forall m <- msgs[..|msgs| - 1] :: m.FileData? && m.path in c && m.path in needed && m.contents == c[m.path])
    && (forall p <- needed :: exists m <- msgs[..|msgs| - 1] :: m.FileData? && m.path == p)
  }

  function Named(files: seq<Message>): set<string> {
    set m <- files | m.FileData? :: m.path
  }

  /** Receiving a faithful answer overwrites exactly the paths it names. */
  lemma {:induction false} ReceiveAnswers(t: Tree, files: seq<Message>, after: seq<Message>, c: Tree)
    requires forall m <- files :: m.FileData? && m.path in c && m.contents == c[m.path]
    ensures var r := ReceiveFiles(t, files + [SyncDone] + after);
            && r.outcome.Synced? && r.rest == after
            && r.tree.Keys == t.Keys + Named(files)
            && forall p <- r.tree :: r.tree[p] == if p in Named(files) then c[p] else t[p]
    decreases |files|
  {
    var inbox := files + [SyncDone] + after;
    if files == [] {
      assert inbox == [SyncDone] + after;
    } else {
      assert inbox[0] == files[0] && inbox[1..] == files[1..] + [SyncDone] + after;
      assert files[0] in files;
      ReceiveAnswers(t[files[0].path := files[0].contents], files[1..], after, c);
      assert files == [files[0]] + files[1..];
      assert Named(files) == {files[0].path} + Named(files[1..]);
    }
  }

  /** In terms of trees: what is missing, different, or out of sight under
      `target` is needed; what the client does not have is stale. */
  ghost predicate Plans(t: Tree, needed: seq<string>, stale: set<string>, c: Tree) {
    && (forall p :: p in needed <==> p in c && !(p in Sources(t) && t[p] == c[p]))
    && (forall p :: p in stale <==> p in Sources(t) && p !in c)
  }

  lemma NeededAndStale(t: Tree, entries: seq<FileEntry>, c: Tree, hash: Bytes -> Digest)
    requires CollisionFree(hash) && ManifestOf(entries, c, hash)
    ensures Plans(t, NeededFiles(entries, LocalManifest(t, hash)), StalePaths(entries, LocalManifest(t, hash)), c)
  {
    var local := LocalManifest(t, hash);
    forall p ensures p in NeededFiles(entries, local) <==> p in c && !(p in Sources(t) && t[p] == c[p]) {
      if p in c {
        var f :| f in entries && f.path == p;
        assert p in local && local[p] == f.hash <==> p in Sources(t) && t[p] == c[p];
        assert forall g <- entries :: g.path == p ==> g.hash == f.hash;
      }
    }
    forall p ensures p in StalePaths(entries, local) <==> p in Sources(t) && p !in c {
      if p in c {
        var f :| f in entries && f.path == p;
      }
    }
  }

  lemma AnswersName(inbox: seq<Message>, needed: seq<string>, c: Tree)
    requires Answers(inbox, needed, c)
    ensures Named(inbox[..|inbox| - 1]) == set p <- needed
  {
    var files := inbox[..|inbox| - 1];
    forall p <- needed ensures p in Named(files) {
      var m :| m in files && m.FileData? && m.path == p;
    }
  }

  lemma PlannedTree(t: Tree, needed: seq<string>, stale: set<string>, u: Tree, c: Tree)
    requires Plans(t, needed, stale, c)
    requires u.Keys == (t - stale).Keys + set p <- needed
    requires forall p <- u :: u[p] == if p in needed && p in c then c[p] else if p in t then t[p] else u[p]
    ensures Sources(u) == Sources(c)
  {
    assert forall p <- needed :: p in c;
    forall p ensures p in Sources(u) <==> p in Sources(c) {
      assert p in needed || p !in needed;
    }
  }

  lemma FetchedTree(t: Tree, needed: seq<string>, stale: set<string>, named: set<string>, u: Tree, c: Tree)
    requires Plans(t, needed, stale, c) && named == set p <- needed
    requires u.Keys == (t - stale).Keys + named && named <= c.Keys
    requires forall p <- u :: u[p] == if p in named then c[p] else (t - stale)[p]
    ensures Sources(u) == Sources(c)
  {
    forall p <- u ensures u[p] == if p in needed && p in c then c[p] else if p in t then t[p] else u[p] {
      assert p in named <==> p in needed;
    }
    PlannedTree(t, needed, stale, u, c);
  }

  /** The heart of both paths: with what is stale gone and what is needed
      fetched, the sources are the client's. */
  lemma FetchConverges(t: Tree, needed: seq<string>, stale: set<string>, inbox: seq<Message>, after: seq<Message>, c: Tree)
    requires Plans(t, needed, stale, c) && Answers(inbox, needed, c)
    ensures var r := ReceiveFiles(t - stale, inbox + after);
            r.outcome.Synced? && r.rest == after && Sources(r.tree) == Sources(c)
  {
    AnswersReceived(t - stale, needed, inbox, after, c);
    FetchedTree(t, needed, stale, (set p <- needed), ReceiveFiles(t - stale, inbox + after).tree, c);
  }

  lemma AnswersReceived(t: Tree, needed: seq<string>, inbox: seq<Message>, after: seq<Message>, c: Tree)
    requires Answers(inbox, needed, c)
    ensures var r, named := ReceiveFiles(t, inbox + after), set p <- needed;
            && r.outcome.Synced? && r.rest == after && named <= c.Keys && r.tree.Keys == t.Keys + named
            && forall p <- r.tree :: r.tree[p] == if p in named then c[p] else t[p]
  {
    var files := inbox[..|inbox| - 1];
    assert inbox + after == files + [SyncDone] + after;
    ReceiveAnswers(t, files, after, c);
    AnswersName(inbox, needed, c);
  }

  /** Files that the client skips are missed: a sync ends with the client's sources
      exactly if every source file that was asked for was sent. It is finished
      in any case. */
  lemma ConvergesExactlyWhen(t: Tree, needed: seq<string>, stale: set<string>, files: seq<Message>, c: Tree)
    requires Plans(t, needed, stale, c)
    requires forall m <- files :: m.FileData? && m.path in needed && m.path in c && m.contents == c[m.path]
    ensures var r := ReceiveFiles(t - stale, files + [SyncDone]);
            r.outcome.Synced? && (Sources(r.tree) == Sources(c) <==> forall p <- needed :: UnderTarget(p) || p in Named(files))
  {
    assert files + [SyncDone] + [] == files + [SyncDone];
    ReceiveAnswers(t - stale, files, [], c);
    var u := ReceiveFiles(t - stale, files + [SyncDone]).tree;
    if forall p <- needed :: UnderTarget(p) || p in Named(files) {
      AllSourcesSent(t, needed, stale, Named(files), u, c);
    } else {
      var p :| p in needed && !UnderTarget(p) && p !in Named(files);
      assert p in Sources(c) && !(p in Sources(u) && u[p] == c[p]);
    }
  }

  lemma AllSourcesSent(t: Tree, needed: seq<string>, stale: set<string>, named: set<string>, u: Tree, c: Tree)
    requires Plans(t, needed, stale, c) && named <= c.Keys && u.Keys == (t - stale).Keys + named
    requires forall p <- u :: u[p] == if p in named then c[p] else (t - stale)[p]
    requires (forall p <- named :: p in needed) && forall p <- needed :: UnderTarget(p) || p in named
    ensures Sources(u) == Sources(c)
  {
    forall p ensures p in Sources(u) <==> p in Sources(c) {
      assert p in needed || p !in needed;
    }
    forall p | p in Sources(u) ensures u[p] == c[p] {
      assert p in Sources(c);
      assert p in needed || p !in needed;
    }
  }

  lemma NothingNeededConverges(t: Tree, stale: set<string>, c: Tree)
    requires Plans(t, [], stale, c)
    ensures Sources(t - stale) == Sources(c)
  {
    forall p ensures (p in Sources(t - stale) <==> p in Sources(c)) && (p in Sources(c) ==> t[p] == c[p]) {
      assert p in [] <==> p in c && !(p in Sources(t) && t[p] == c[p]);
    }
  }

  /** Whatever is bundled, speculation with a faithful client ends with the
      client's sources in the slot. */
  lemma SpeculationConverges(
      t: Tree, spec: Protocol.SpeculativeSync, inbox: seq<Message>, after: seq<Message>, c: Tree, hash: Bytes -> Digest)
    requires CollisionFree(hash) && ManifestOf(spec.manifest, c, hash)
    requires var needed := NeededFiles(spec.manifest, LocalManifest(ApplyOps(t, Puts(spec.files)), hash));
             if needed == [] then inbox == [] else Answers(inbox, needed, c)
    ensures var r := SpeculativeSync(t, inbox + after, spec, hash);
            r.outcome.Synced? && r.rest == after && Sources(r.tree) == Sources(c)
  {
    var bundled := ApplyOps(t, Puts(spec.files));
    var local := LocalManifest(bundled, hash);
    NeededAndStale(bundled, spec.manifest, c, hash);
    if NeededFiles(spec.manifest, local) == [] {
      NothingNeededConverges(bundled, StalePaths(spec.manifest, local), c);
      assert inbox + after == after;
    } else {
      FetchConverges(bundled, NeededFiles(spec.manifest, local), StalePaths(spec.manifest, local), inbox, after, c);
    }
  }

  lemma LegacyConverges(
      t: Tree, team: string, scope: string, entries: seq<FileEntry>,
      inbox: seq<Message>, after: seq<Message>, c: Tree, hash: Bytes -> Digest)
    requires CollisionFree(hash) && ManifestOf(entries, c, hash)
    requires Answers(inbox, NeededFiles(entries, LocalManifest(t, hash)), c)
    ensures var r := LegacySync(t, [Manifest(team, scope, entries)] + inbox + after, hash);
            r.outcome.Synced? && r.rest == after && Sources(r.tree) == Sources(c)
  {
    var local := LocalManifest(t, hash);
    NeededAndStale(t, entries, c, hash);
    FetchConverges(t, NeededFiles(entries, local), StalePaths(entries, local), inbox, after, c);
    var all := [Manifest(team, scope, entries)] + inbox + after;
    assert all[1..] == inbox + after;
  }

  /** Speculation is transparent: two slots with any contents, one synced with
      any bundle and one without, end with the same sources. */
  lemma SpeculationIsTransparent(
      t: Tree, u: Tree, spec: Protocol.SpeculativeSync, answer: seq<Message>,
      team: string, scope: string, legacyAnswer: seq<Message>, c: Tree, hash: Bytes -> Digest)
    requires CollisionFree(hash) && ManifestOf(spec.manifest, c, hash)
    requires var needed := NeededFiles(spec.manifest, LocalManifest(ApplyOps(t, Puts(spec.files)), hash));
             if needed == [] then answer == [] else Answers(answer, needed, c)
    requires Answers(legacyAnswer, NeededFiles(spec.manifest, LocalManifest(u, hash)), c)
    ensures Sources(SpeculativeSync(t, answer, spec, hash).tree)
            == Sources(LegacySync(u, [Manifest(team, scope, spec.manifest)] + legacyAnswer, hash).tree)
            == Sources(c)
  {
    SpeculationConverges(t, spec, answer, [], c, hash);
    LegacyConverges(u, team, scope, spec.manifest, legacyAnswer, [], c, hash);
    assert answer + [] == answer;
    assert [Manifest(team, scope, spec.manifest)] + legacyAnswer + [] == [Manifest(team, scope, spec.manifest)] + legacyAnswer;
  }

  /** Exactly when no second round trip is needed: once the bundle is written,
      every file of the client is outside `target` and already as it should be. */
  lemma OneRoundTripExactlyWhen(t: Tree, spec: Protocol.SpeculativeSync, inbox: seq<Message>, c: Tree, hash: Bytes -> Digest)
    requires CollisionFree(hash) && ManifestOf(spec.manifest, c, hash)
    ensures SpeculativeSync(t, inbox, spec, hash).sent == [SyncAck] <==>
            var bundled := ApplyOps(t, Puts(spec.files));
            forall p <- c :: !UnderTarget(p) && p in bundled && bundled[p] == c[p]
  {
    var bundled := ApplyOps(t, Puts(spec.files));
    var local := LocalManifest(bundled, hash);
    NeededAndStale(bundled, spec.manifest, c, hash);
    NothingNeeded(bundled, NeededFiles(spec.manifest, local), StalePaths(spec.manifest, local), c);
    assert NeededFiles(spec.manifest, local) != [] ==> SpeculativeSync(t, inbox, spec, hash).sent[0].NeedFiles?;
  }

  lemma NothingNeeded(t: Tree, needed: seq<string>, stale: set<string>, c: Tree)
    requires Plans(t, needed, stale, c)
    ensures needed == [] <==> forall p <- c :: !UnderTarget(p) && p in t && t[p] == c[p]
  {
    if needed == [] {
      assert forall p <- c :: p !in needed;
    } else {
      assert needed[0] in needed;
    }
  }

  /** `changed_paths`: what differs from the last recorded sync. */
  function ChangedPaths(current: seq<FileEntry>, last: Option<map<string, Digest>>): seq<string> {
    if last.None? then [] else NeededFiles(current, last.value)
  }

  /** `build_speculative`: the contents of the changed files. */
  function Bundle(changed: seq<string>, c: Tree): (files: seq<(string, Bytes)>)
    ensures forall p, b :: (p, b) in files <==> p in changed && p in c && b == c[p]
  {
    if changed == [] then []
    else
      var rest := Bundle(changed[1..], c);
      assert changed == [changed[0]] + changed[1..];
      if changed[0] in c then [(changed[0], c[changed[0]])] + rest else rest
  }

  lemma {:induction false} PutsOfTree(t: Tree, files: seq<(string, Bytes)>, c: Tree)
    requires forall f <- files :: f.0 in c && f.1 == c[f.0]
    ensures var u := ApplyOps(t, Puts(files));
            forall p <- c :: ((p in t && t[p] == c[p]) || exists f <- files :: f.0 == p) ==> p in u && u[p] == c[p]
    decreases |files|
  {
    if files != [] {
      assert Puts(files)[1..] == Puts(files[1..]);
      assert files[0] in files;
      PutsOfTree(t[files[0].0 := files[0].1], files[1..], c);
      assert files == [files[0]] + files[1..];
    }
  }

  /** When the last recorded sync is the slot's tree and the client keeps
      nothing under `target`, the bundle the client builds is enough. */
  lemma ChangedPathsSuffice(t: Tree, entries: seq<FileEntry>, inbox: seq<Message>, c: Tree, hash: Bytes -> Digest)
    requires CollisionFree(hash) && ManifestOf(entries, c, hash)
    requires forall p <- c :: !UnderTarget(p)
    ensures var changed := ChangedPaths(entries, Some(LocalManifest(t, hash)));
            SpeculativeSync(t, inbox, Protocol.SpeculativeSync(entries, Bundle(changed, c)), hash).sent == [SyncAck]
  {
    var changed := ChangedPaths(entries, Some(LocalManifest(t, hash)));
    var files := Bundle(changed, c);
    var spec := Protocol.SpeculativeSync(entries, files);
    PutsOfTree(t, files, c);
    forall p <- c ensures (p in t && t[p] == c[p]) || exists f <- files :: f.0 == p {
      var f :| f in entries && f.path == p;
      if p in changed { assert (p, c[p]) in files; }
    }
    OneRoundTripExactlyWhen(t, spec, inbox, c, hash);
  }

  /** A client that knows of no sync bundles nothing; one that does, what it has
      now that is not as it was then. */
  lemma ChangedPathsAre(current: seq<FileEntry>, last: Option<map<string, Digest>>, p: string)
    ensures p in ChangedPaths(current, last) <==>
              last.Some? && exists f <- current :: f.path == p && !(p in last.value && last.value[p] == f.hash)
  {
  }

  lemma {:induction false} PutsElsewhere(t: Tree, files: seq<(string, Bytes)>, p: string)
    requires forall f <- files :: f.0 != p
    ensures var u := ApplyOps(t, Puts(files)); (p in u <==> p in t) && (p in u ==> u[p] == t[p])
    decreases |files|
  {
    if files != [] {
      assert Puts(files)[1..] == Puts(files[1..]);
      assert files[0] in files;
      PutsElsewhere(t[files[0].0 := files[0].1], files[1..], p);
    }
  }

  /** And nothing less is enough: a bundle that spares the second round trip has
      every changed file in it. */
  lemma NothingLessSuffices(
      t: Tree, entries: seq<FileEntry>, files: seq<(string, Bytes)>, inbox: seq<Message>, c: Tree, hash: Bytes -> Digest)
    requires CollisionFree(hash) && ManifestOf(entries, c, hash) && forall p <- c :: !UnderTarget(p)
    requires SpeculativeSync(t, inbox, Protocol.SpeculativeSync(entries, files), hash).sent == [SyncAck]
    ensures forall p <- ChangedPaths(entries, Some(LocalManifest(t, hash))) :: exists f <- files :: f.0 == p
  {
    OneRoundTripExactlyWhen(t, Protocol.SpeculativeSync(entries, files), inbox, c, hash);
    NeededAndStale(t, entries, c, hash);
    forall p <- ChangedPaths(entries, Some(LocalManifest(t, hash))) ensures exists f <- files :: f.0 == p {
      if forall f <- files :: f.0 != p { PutsElsewhere(t, files, p); }
    }
  }

  /** `walk_workspace` tests whole paths: what it sees of a workspace at `root`. */
  function WalkedManifest(root: string, t: Tree, hash: Bytes -> Digest): map<string, Digest> {
    map p | p in t && !UnderTarget(root + ['/'] + p) :: hash(t[p])
  }

  /** That is the workspace's manifest, unless `root` itself lies under a folder
      named `target`: then nothing is seen. */
  lemma WalkedManifestIs(root: string, t: Tree, hash: Bytes -> Digest)
    ensures WalkedManifest(root, t, hash) == if UnderTarget(root) then map[] else LocalManifest(t, hash)
  {
    forall p | p in t ensures UnderTarget(root + ['/'] + p) <==> UnderTarget(root) || UnderTarget(p) {
      UnderTargetIs(root, p);
    }
  }

  /** Where nothing is seen everything is sent and nothing removed, so a sync
      ends with the client's sources exactly if there was no other file. */
  lemma BlindSyncConvergesExactlyWhen(
      root: string, t: Tree, entries: seq<FileEntry>, inbox: seq<Message>, c: Tree, hash: Bytes -> Digest)
    requires UnderTarget(root) && ManifestOf(entries, c, hash)
    requires Answers(inbox, NeededFiles(entries, WalkedManifest(root, t, hash)), c)
    ensures var r := ReceiveFiles(t - StalePaths(entries, WalkedManifest(root, t, hash)), inbox);
            r.outcome.Synced? && (Sources(r.tree) == Sources(c) <==> Sources(t).Keys <= c.Keys)
  {
    var local := WalkedManifest(root, t, hash);
    WalkedManifestIs(root, t, hash);
    AllNeeded(entries, c, hash);
    assert t - StalePaths(entries, local) == t;
    AllSent(t, NeededFiles(entries, local), inbox, c);
  }

  lemma AllSent(t: Tree, needed: seq<string>, inbox: seq<Message>, c: Tree)
    requires Answers(inbox, needed, c) && (set p <- needed) == c.Keys
    ensures var r := ReceiveFiles(t, inbox);
            r.outcome.Synced? && (Sources(r.tree) == Sources(c) <==> Sources(t).Keys <= c.Keys)
  {
    var files := inbox[..|inbox| - 1];
    assert files + [SyncDone] + [] == inbox;
    ReceiveAnswers(t, files, [], c);
    AnswersName(inbox, needed, c);
    Overwritten(t, ReceiveFiles(t, inbox).tree, c);
  }

  lemma AllNeeded(entries: seq<FileEntry>, c: Tree, hash: Bytes -> Digest)
    requires ManifestOf(entries, c, hash)
    ensures (set p <- NeededFiles(entries, map[])) == c.Keys
  {
    var needed := NeededFiles(entries, map[]);
    forall p ensures p in needed <==> p in c.Keys {
      if p in c { assert exists f <- entries :: f.path == p; }
    }
  }

  lemma Overwritten(t: Tree, u: Tree, c: Tree)
    requires u.Keys == t.Keys + c.Keys && forall p <- c :: u[p] == c[p]
    ensures Sources(u) == Sources(c) <==> Sources(t).Keys <= c.Keys
  {
    if Sources(t).Keys <= c.Keys {
      assert forall p :: p in Sources(u) <==> p in Sources(c);
    } else {
      var p :| p in Sources(t) && p !in c;
      assert p in Sources(u) && p !in Sources(c);
    }
  }
}
