/** A thread that is left alone does with its file operations what the sync code
    does to a workspace in place. */
module DaemonSync {
  import opened Wrappers
  import opened Protocol
  import opened Sync
  import opened Daemon
  import opened DaemonSafety
  import opened DaemonTheorems

  function StillTo(bundling: bool, index: nat, ops: seq<FileOp>): Phase {
    if bundling then Bundling(index, ops) else Fetching(index, ops)
  }

  lemma OneOp(s: State, t: State, i: nat, g: Slot, bundling: bool, ops: seq<FileOp>, tree: Tree)
    requires Live(s, i) && s.jobs[i].scope == g.scope && Reached(s, t, i, g, StillTo(bundling, g.index, ops), tree) && ops != []
    ensures DoSyncOp(t, i).Some?
    ensures Reached(s, DoSyncOp(t, i).value, i, g, StillTo(bundling, g.index, ops[1..]), ApplyOp(tree, ops[0]))
  {
    assert GuardOf(t, i) == g;
  }

  /** It carries out what it has before it, in order. */
  lemma {:induction false} OpsRun(s: State, t: State, i: nat, g: Slot, bundling: bool, ops: seq<FileOp>, tree: Tree)
    returns (acts: seq<Action>, u: State)
    requires Live(s, i) && s.jobs[i].scope == g.scope && Reached(s, t, i, g, StillTo(bundling, g.index, ops), tree)
    ensures Run(t, acts) == Some(u) && Reached(s, u, i, g, StillTo(bundling, g.index, []), ApplyOps(tree, ops))
    decreases |ops|
  {
    if ops == [] {
      acts, u := [], t;
    } else {
      OneOp(s, t, i, g, bundling, ops, tree);
      var rest, v := OpsRun(s, DoSyncOp(t, i).value, i, g, bundling, ops[1..], ApplyOp(tree, ops[0]));
      RunCons(t, SyncOp(i), rest);
      acts, u := [SyncOp(i)] + rest, v;
    }
  }

  /** A thread that finds another fingerprint, or none, writes its bundle. */
  lemma BundleRuns(s: State, i: nat, g: Slot) returns (acts: seq<Action>, t: State)
    requires Chooses(s, i, g) && !(g in s.prints && s.prints[g] == s.jobs[i].fingerprint)
    ensures Run(s, acts) == Some(t)
    ensures Reached(s, t, i, g, Bundling(g.index, []), ApplyOps(TreeAt(s, g), Puts(s.jobs[i].bundle)))
  {
    Acquires(s, i, g);
    var s1 := DoAcquire(s, i).value;
    Misses(s, s1, i, g, TreeAt(s, g));
    var s2 := DoCheck(s1, i).value;
    var rest, u := OpsRun(s, s2, i, g, true, Puts(s.jobs[i].bundle), TreeAt(s, g));
    RunCons(s1, Check(i), rest);
    RunCons(s, Acquire(i), [Check(i)] + rest);
    acts, t := [Acquire(i)] + ([Check(i)] + rest), u;
  }

  /** Removing and fetching by plan is what receiving a faithful answer does. */
  lemma PlanIsReceipt(t: Tree, removes: seq<string>, needed: seq<string>, answer: seq<Message>, c: Tree)
    requires Answers(answer, needed, c) && forall p <- needed :: p in c
    ensures ApplyOps(t, Removes(removes) + Fetches(needed, c)) == ReceiveFiles(t - (set p <- removes), answer).tree
  {
    var cleaned, files := t - (set p <- removes), answer[..|answer| - 1];
    ApplyOpsAppend(t, Removes(removes), Fetches(needed, c));
    RemovesApply(t, removes);
    FetchesApply(cleaned, needed, c);
    assert files + [Message.SyncDone] + [] == answer;
    ReceiveAnswers(cleaned, files, [], c);
    AnswersName(answer, needed, c);
    assert forall p :: p in Named(files) <==> p in needed;
    SameTrees(ApplyOps(cleaned, Fetches(needed, c)), ReceiveFiles(cleaned, answer).tree);
  }

  lemma SameTrees(a: Tree, b: Tree)
    requires a.Keys == b.Keys && forall p <- a :: a[p] == b[p]
    ensures a == b
  {
  }

  /** The whole of a sync, its removals in any order: the thread ends on the tree
      that the sync code leaves for the same client, with its fingerprint cached
      and ready to build. */
  lemma ThreadDoesSync(
      s: State, i: nat, g: Slot, spec: Protocol.SpeculativeSync, removes: seq<string>, answer: seq<Message>, hash: Bytes -> Digest)
    returns (acts: seq<Action>, t: State)
    requires Chooses(s, i, g) && !(g in s.prints && s.prints[g] == s.jobs[i].fingerprint)
    requires CollisionFree(hash) && ManifestOf(spec.manifest, s.jobs[i].tree, hash) && spec.files == s.jobs[i].bundle
    requires var bundled := ApplyOps(TreeAt(s, g), Puts(spec.files));
             var local := LocalManifest(bundled, hash);
             var needed := NeededFiles(spec.manifest, local);
             && (set p <- removes) == StalePaths(spec.manifest, local)
             && (if needed == [] then answer == [] else Answers(answer, needed, s.jobs[i].tree))
    ensures Run(s, acts) == Some(t) && Holds(t, i, g) && t.phases[i] == Building(g.index, false)
    ensures g in t.prints && t.prints[g] == s.jobs[i].fingerprint
    ensures TreeAt(t, g) == Sync.SpeculativeSync(TreeAt(s, g), answer, spec, hash).tree
  {
    var bundled := ApplyOps(TreeAt(s, g), Puts(spec.files));
    var local := LocalManifest(bundled, hash);
    var needed := NeededFiles(spec.manifest, local);
    var first, u := BundleRuns(s, i, g);
    NeededAndStale(bundled, spec.manifest, s.jobs[i].tree, hash);
    var second, v := FetchRuns(s, u, i, g, removes, needed, bundled);
    RunAppend(s, first, second);
    acts, t := first + second, v;
    assert forall p <- needed :: p in s.jobs[i].tree;
    if needed == [] {
      ApplyOpsAppend(bundled, Removes(removes), []);
      RemovesApply(bundled, removes);
    } else {
      PlanIsReceipt(bundled, removes, needed, answer, s.jobs[i].tree);
    }
  }

  lemma FetchRuns(s: State, u: State, i: nat, g: Slot, removes: seq<string>, needed: seq<string>, bundled: Tree)
    returns (acts: seq<Action>, t: State)
    requires Live(s, i) && s.jobs[i].scope == g.scope && Reached(s, u, i, g, Bundling(g.index, []), bundled)
    requires Plans(bundled, needed, (set p <- removes), s.jobs[i].tree)
    ensures Run(u, acts) == Some(t) && Holds(t, i, g) && t.phases[i] == Building(g.index, false)
    ensures g in t.prints && t.prints[g] == s.jobs[i].fingerprint
    ensures TreeAt(t, g) == ApplyOps(bundled, Removes(removes) + Fetches(needed, s.jobs[i].tree))
  {
    var ops := Removes(removes) + Fetches(needed, s.jobs[i].tree);
    PlansIts(s, u, i, g, removes, needed, bundled);
    var u1 := DoPlan(u, i, removes, needed).value;
    var rest, u2 := OpsRun(s, u1, i, g, false, ops, bundled);
    assert GuardOf(u2, i) == g;
    t := DoSyncDone(u2, i).value;
    RunCons(u2, Action.SyncDone(i), []);
    RunAppend(u1, rest, [Action.SyncDone(i)] + []);
    RunCons(u, Plan(i, removes, needed), rest + ([Action.SyncDone(i)] + []));
    acts := [Plan(i, removes, needed)] + (rest + ([Action.SyncDone(i)] + []));
    assert GuardOf(t, i) == g;
  }
}
