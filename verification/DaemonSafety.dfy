/** What every interleaving of daemon threads keeps. */
module DaemonSafety {
  import opened Slots
  import opened Sync
  import opened Daemon

  /** Writing one slot's files leaves every other slot's alone. */
  lemma OtherTree(s: State, g: Slot, h: Slot, tree: Tree)
    requires Apart(s) && g.scope < |s.names| && h.scope < |s.names| && g != h
    ensures TreeAt(s.(disk := s.disk[s.dirOf(g) := tree]), h) == TreeAt(s, h)
  {
  }

  lemma InitInv(s: State, home: string)
    requires Init(s, home)
    ensures Inv(s)
  {
    forall g: Slot, h: Slot | g.scope < |s.names| && h.scope < |s.names| && s.dirOf(g) <= s.dirOf(h) ensures g == h {
      var a, b := SlotGuard(s.names[g.scope], g.index), SlotGuard(s.names[h.scope], h.index);
      WorkspacesDistinct(home, a, b);
      assert s.names[g.scope] == s.names[h.scope];
    }
  }

  /** One thread moves on with the same guard, the table unchanged. */
  lemma TableKept(s: State, t: State, i: nat)
    requires TableOk(s) && Live(s, i) && Holding(s.phases[i])
    requires t.jobs == s.jobs && t.n == s.n && t.table == s.table && t.owner == s.owner
    requires |t.phases| == |s.phases| && t.phases == s.phases[i := t.phases[i]]
    requires Holding(t.phases[i]) && t.phases[i].index == s.phases[i].index
    ensures TableOk(t)
  {
    forall j: nat | Live(s, j) && Holding(s.phases[j]) ensures Holding(t.phases[j]) && GuardOf(t, j) == GuardOf(s, j) {}
  }

  /** A thread takes a free slot. */
  lemma TableTaken(s: State, t: State, i: nat, k: nat)
    requires TableOk(s) && Live(s, i) && s.phases[i].Fresh? && k < s.n
    requires |RowAt(s, KeyOf(s, i))| == s.n && !RowAt(s, KeyOf(s, i))[k]
    requires t == s.(table := s.table[KeyOf(s, i) := RowAt(s, KeyOf(s, i))[k := true]],
                     phases := s.phases[i := Probing(k)], owner := s.owner[Slot(KeyOf(s, i), k) := i])
    ensures TableOk(t)
  {
    var g := Slot(KeyOf(s, i), k);
    assert g !in s.owner;
    assert GuardOf(t, i) == g && t.owner[g] == i && t.table[g.scope][k];
    forall h <- t.owner | h != g
      ensures h in s.owner && t.owner[h] == s.owner[h] != i && h.scope in t.table && h.index < t.n && t.table[h.scope][h.index]
    {
    }
    forall j: nat | Live(s, j) && j != i && Holding(s.phases[j])
      ensures Holding(t.phases[j]) && GuardOf(t, j) == GuardOf(s, j) && GuardOf(s, j) != g
    {
    }
  }

  lemma TableBusy(s: State, t: State, i: nat)
    requires TableOk(s) && Live(s, i) && s.phases[i].Fresh? && |RowAt(s, KeyOf(s, i))| == s.n
    requires t == s.(table := s.table[KeyOf(s, i) := RowAt(s, KeyOf(s, i))], phases := s.phases[i := Rejected])
    ensures TableOk(t)
  {
    forall j: nat | Live(s, j) && j != i && Holding(s.phases[j]) ensures Holding(t.phases[j]) && GuardOf(t, j) == GuardOf(s, j) {}
  }

  lemma TableAcquire(s: State, i: nat)
    requires TableOk(s) && DoAcquire(s, i).Some?
    ensures TableOk(DoAcquire(s, i).value)
  {
    var t := DoAcquire(s, i).value;
    match Pick(RowAt(s, KeyOf(s, i)), s.jobs[i].preferred)
    case None => TableBusy(s, t, i);
    case Some(k) => TableTaken(s, t, i, k);
  }

  lemma TableRelease(s: State, i: nat)
    requires TableOk(s) && Live(s, i) && Holding(s.phases[i])
    ensures TableOk(Release(s, i))
  {
    var t := Release(s, i);
    forall j: nat | Live(s, j) && j != i && Holding(s.phases[j])
      ensures Holding(t.phases[j]) && GuardOf(t, j) == GuardOf(s, j) != GuardOf(s, i)
    {
      assert s.owner[GuardOf(s, j)] == j && s.owner[GuardOf(s, i)] == i;
    }
  }

  /** Threads other than the one that moved. */
  lemma OthersKept(s: State, t: State, i: nat)
    requires Live(s, i) && forall j: nat | Live(s, j) :: ThreadOk(s, j)
    requires t.jobs == s.jobs && t.dirOf == s.dirOf && t.names == s.names
    requires |t.phases| == |s.phases| && t.phases == s.phases[i := t.phases[i]]
    requires forall j: nat | Live(s, j) && j != i && Holding(s.phases[j]) ::
               var g := GuardOf(s, j);
               && TreeAt(t, g) == TreeAt(s, g)
               && (g in s.prints ==> g in t.prints && t.prints[g] == s.prints[g])
               && (g in t.aborted <==> g in s.aborted)
    ensures forall j: nat | Live(t, j) && j != i :: ThreadOk(t, j)
  {
    forall j: nat | Live(t, j) && j != i ensures ThreadOk(t, j) {
      assert ThreadOk(s, j);
      if Holding(s.phases[j]) { assert GuardOf(t, j) == GuardOf(s, j); }
    }
  }

  /** Fingerprints and files unchanged, and no sync stops being under way. */
  lemma PrintsKept(s: State, t: State)
    requires PrintsOk(s)
    requires t.jobs == s.jobs && t.dirOf == s.dirOf && t.names == s.names
    requires t.prints == s.prints && t.last == s.last && s.aborted <= t.aborted
    requires t.disk == s.disk
    requires forall g <- s.prints :: g !in t.aborted && BeingSynced(s, g) ==> BeingSynced(t, g)
    ensures PrintsOk(t)
  {
    assert forall g <- s.prints :: TreeAt(t, g) == TreeAt(s, g);
    assert forall k: nat | k < |s.jobs| :: KeyOf(t, k) == KeyOf(s, k);
  }

  /** A thread that was not syncing moves: every sync under way still is. */
  lemma SyncsGoOn(s: State, t: State, i: nat)
    requires TableOk(s) && Live(s, i) && !Syncing(s.phases[i])
    requires t.jobs == s.jobs && |t.phases| == |s.phases| && t.phases == s.phases[i := t.phases[i]]
    requires forall g <- s.owner :: g in t.owner && (s.owner[g] != i ==> t.owner[g] == s.owner[g])
    ensures forall g :: BeingSynced(s, g) ==> BeingSynced(t, g)
  {
  }

  ghost predicate ThreadsOk(s: State) {
    forall i: nat | Live(s, i) :: ThreadOk(s, i)
  }

  lemma AcquirePrints(s: State, i: nat)
    requires PrintsOk(s) && TableOk(s) && DoAcquire(s, i).Some?
    ensures PrintsOk(DoAcquire(s, i).value)
  {
    var t := DoAcquire(s, i).value;
    SyncsGoOn(s, t, i);
    PrintsKept(s, t);
  }

  lemma AcquireThreads(s: State, i: nat)
    requires ThreadsOk(s) && DoAcquire(s, i).Some?
    ensures ThreadsOk(DoAcquire(s, i).value)
  {
    OthersKept(s, DoAcquire(s, i).value, i);
  }

  lemma InvAcquire(s: State, i: nat)
    requires Inv(s) && DoAcquire(s, i).Some?
    ensures Inv(DoAcquire(s, i).value)
  {
    TableAcquire(s, i);
    AcquirePrints(s, i);
    assert ThreadsOk(s);
    AcquireThreads(s, i);
  }

  lemma CheckPrints(s: State, i: nat)
    requires PrintsOk(s) && TableOk(s) && DoCheck(s, i).Some?
    ensures PrintsOk(DoCheck(s, i).value)
  {
    var t := DoCheck(s, i).value;
    SyncsGoOn(s, t, i);
    PrintsKept(s, t);
  }

  /** A fast path is taken on the last synced sources, unless a sync has been
      abandoned since. */
  lemma CheckThread(s: State, i: nat)
    requires PrintsOk(s) && TableOk(s) && Sane(s) && DoCheck(s, i).Some?
    ensures ThreadOk(DoCheck(s, i).value, i)
  {
    var t := DoCheck(s, i).value;
    var g := GuardOf(s, i);
    assert GuardOf(t, i) == g && !BeingSynced(s, g) && TreeAt(t, g) == TreeAt(s, g);
    if g in s.prints { assert s.last[g] < |s.jobs|; }
  }

  lemma InvCheck(s: State, i: nat)
    requires Inv(s) && DoCheck(s, i).Some?
    ensures Inv(DoCheck(s, i).value)
  {
    var t := DoCheck(s, i).value;
    CheckThread(s, i);
    assert ThreadsOk(t) by { OthersKept(s, t, i); }
    assert TableOk(t) by { TableKept(s, t, i); }
    CheckPrints(s, i);
  }

  /** A thread changes the files of the slot it holds, its phase but not its guard. */
  lemma WriterKept(s: State, t: State, i: nat, tree: Tree)
    requires Inv(s) && Live(s, i) && Holding(s.phases[i])
    requires |t.phases| == |s.phases|
    requires t == s.(disk := s.disk[s.dirOf(GuardOf(s, i)) := tree], phases := s.phases[i := t.phases[i]])
    requires Holding(t.phases[i]) && t.phases[i].index == s.phases[i].index
    requires Syncing(s.phases[i]) <==> Syncing(t.phases[i])
    requires Syncing(s.phases[i]) || Sources(tree) == Sources(TreeAt(s, GuardOf(s, i)))
    ensures TableOk(t) && PrintsOk(t) && forall j: nat | Live(t, j) && j != i :: ThreadOk(t, j)
    ensures TreeAt(t, GuardOf(t, i)) == tree
  {
    TableKept(s, t, i);
    OtherSlotsKept(s, t, i, tree);
    OthersKept(s, t, i);
    WriterPrintsKept(s, t, i, tree);
    assert GuardOf(t, i) == GuardOf(s, i);
  }

  lemma OtherSlotsKept(s: State, t: State, i: nat, tree: Tree)
    requires Inv(s) && Live(s, i) && Holding(s.phases[i])
    requires t.dirOf == s.dirOf && t.names == s.names && t.disk == s.disk[s.dirOf(GuardOf(s, i)) := tree]
    ensures forall g: Slot :: g.scope < |s.names| && g != GuardOf(s, i) ==> TreeAt(t, g) == TreeAt(s, g)
    ensures forall j: nat | Live(s, j) && j != i && Holding(s.phases[j]) ::
              GuardOf(s, j) != GuardOf(s, i) && TreeAt(t, GuardOf(s, j)) == TreeAt(s, GuardOf(s, j))
  {
    forall g: Slot | g.scope < |s.names| && g != GuardOf(s, i) ensures TreeAt(t, g) == TreeAt(s, g) {
      OtherTree(s, GuardOf(s, i), g, tree);
    }
    GuardsApart(s, i);
  }

  lemma WriterPrintsKept(s: State, t: State, i: nat, tree: Tree)
    requires Inv(s) && Live(s, i) && Holding(s.phases[i])
    requires |t.phases| == |s.phases|
    requires t == s.(disk := s.disk[s.dirOf(GuardOf(s, i)) := tree], phases := s.phases[i := t.phases[i]])
    requires Syncing(s.phases[i]) <==> Syncing(t.phases[i])
    requires Syncing(s.phases[i]) || Sources(tree) == Sources(TreeAt(s, GuardOf(s, i)))
    ensures PrintsOk(t)
  {
    var g := GuardOf(s, i);
    OtherSlotsKept(s, t, i, tree);
    forall h <- t.prints
      ensures BeingSynced(s, h) ==> BeingSynced(t, h)
      ensures h != g ==> TreeAt(t, h) == TreeAt(s, h)
      ensures KeyOf(t, s.last[h]) == KeyOf(s, s.last[h])
    {
    }
    assert Syncing(s.phases[i]) ==> BeingSynced(t, g);
  }

  lemma InvSyncOp(s: State, i: nat)
    requires Inv(s) && DoSyncOp(s, i).Some?
    ensures Inv(DoSyncOp(s, i).value)
  {
    var t := DoSyncOp(s, i).value;
    var g := GuardOf(s, i);
    assert ThreadOk(s, i);
    WriterKept(s, t, i, ApplyOp(TreeAt(s, g), s.phases[i].ops[0]));
    assert GuardOf(t, i) == g;
  }

  lemma InvBuild(s: State, i: nat, after: Tree)
    requires Inv(s) && DoBuild(s, i, after).Some?
    ensures Inv(DoBuild(s, i, after).value)
  {
    var t := DoBuild(s, i, after).value;
    assert ThreadOk(s, i);
    assert t.phases == s.phases[i := t.phases[i]];
    WriterKept(s, t, i, after);
    assert GuardOf(t, i) == GuardOf(s, i);
  }

  lemma {:induction false} RemovesApply(t: Tree, paths: seq<string>)
    ensures ApplyOps(t, Removes(paths)) == t - set p <- paths
    decreases |paths|
  {
    if paths == [] {
      assert t - (set p <- paths) == t;
    } else {
      var rest := paths[1..];
      assert Removes(paths)[1..] == Removes(rest);
      RemovesApply(t - {paths[0]}, rest);
      assert (set p <- paths) == {paths[0]} + (set p <- rest) by { assert paths == [paths[0]] + rest; }
      assert t - {paths[0]} - (set p <- rest) == t - ({paths[0]} + (set p <- rest));
    }
  }

  lemma {:induction false} FetchesApply(t: Tree, paths: seq<string>, c: Tree)
    requires forall p <- paths :: p in c
    ensures var u := ApplyOps(t, Fetches(paths, c));
            && u.Keys == t.Keys + (set p <- paths)
            && forall p <- u :: u[p] == if p in paths then c[p] else t[p]
    decreases |paths|
  {
    if paths != [] {
      var rest := paths[1..];
      assert paths[0] in paths && paths == [paths[0]] + rest;
      assert Fetches(paths, c)[0] == Put(paths[0], c[paths[0]]) && Fetches(paths, c)[1..] == Fetches(rest, c);
      FetchesApply(t[paths[0] := c[paths[0]]], rest, c);
      assert (set p <- paths) == {paths[0]} + set p <- rest;
    }
  }

  /** Carrying out a plan leaves the client's sources. */
  lemma PlanConverges(t: Tree, removes: seq<string>, needed: seq<string>, c: Tree)
    requires Plans(t, needed, (set p <- removes), c)
    ensures Sources(ApplyOps(t, Removes(removes) + Fetches(needed, c))) == Sources(c)
  {
    ApplyOpsAppend(t, Removes(removes), Fetches(needed, c));
    RemovesApply(t, removes);
    assert forall p <- needed :: p in c;
    FetchesApply(t - (set p <- removes), needed, c);
    PlannedTree(t, needed, (set p <- removes), ApplyOps(t, Removes(removes) + Fetches(needed, c)), c);
  }

  lemma InvPlan(s: State, i: nat, removes: seq<string>, needed: seq<string>)
    requires Inv(s) && DoPlan(s, i, removes, needed).Some?
    ensures Inv(DoPlan(s, i, removes, needed).value)
  {
    var t := DoPlan(s, i, removes, needed).value;
    PlanConverges(TreeAt(s, GuardOf(s, i)), removes, needed, s.jobs[i].tree);
    TableKept(s, t, i);
    OthersKept(s, t, i);
    PrintsKept(s, t);
    assert GuardOf(t, i) == GuardOf(s, i) && TreeAt(t, GuardOf(t, i)) == TreeAt(s, GuardOf(s, i));
  }

  lemma SyncDonePrints(s: State, i: nat)
    requires PrintsOk(s) && TableOk(s) && DoSyncDone(s, i).Some? && ThreadOk(s, i)
    ensures PrintsOk(DoSyncDone(s, i).value) && ThreadOk(DoSyncDone(s, i).value, i)
  {
    var t := DoSyncDone(s, i).value;
    var g := GuardOf(s, i);
    assert GuardOf(t, i) == g && TreeAt(t, g) == TreeAt(s, g);
    assert Sources(TreeAt(s, g)) == Sources(s.jobs[i].tree);
    forall h <- t.prints | h != g
      ensures h in s.prints && TreeAt(t, h) == TreeAt(s, h) && (BeingSynced(s, h) ==> BeingSynced(t, h))
    {
    }
  }

  lemma InvSyncDone(s: State, i: nat)
    requires Inv(s) && DoSyncDone(s, i).Some?
    ensures Inv(DoSyncDone(s, i).value)
  {
    var t := DoSyncDone(s, i).value;
    SyncDonePrints(s, i);
    assert ThreadsOk(t) by {
      GuardsApart(s, i);
      OthersKept(s, t, i);
    }
    assert TableOk(t) by { TableKept(s, t, i); }
  }

  /** No two threads hold the same guard. */
  lemma GuardsApart(s: State, i: nat)
    requires TableOk(s) && Live(s, i) && Holding(s.phases[i])
    ensures forall j: nat | Live(s, j) && j != i && Holding(s.phases[j]) :: GuardOf(s, j) != GuardOf(s, i)
  {
    forall j: nat | Live(s, j) && j != i && Holding(s.phases[j]) ensures GuardOf(s, j) != GuardOf(s, i) {
      assert s.owner[GuardOf(s, j)] == j && s.owner[GuardOf(s, i)] == i;
    }
  }

  function Abandon(s: State, i: nat): State
    requires Live(s, i) && Holding(s.phases[i])
  {
    if Syncing(s.phases[i]) then Release(s, i).(aborted := s.aborted + {GuardOf(s, i)}) else Release(s, i)
  }

  lemma AbandonPrints(s: State, i: nat)
    requires PrintsOk(s) && TableOk(s) && Live(s, i) && Holding(s.phases[i])
    ensures PrintsOk(Abandon(s, i))
  {
    var t := Abandon(s, i);
    var g := GuardOf(s, i);
    assert BeingSynced(s, g) ==> g in t.aborted;
    forall h <- s.prints | h !in t.aborted && BeingSynced(s, h) ensures BeingSynced(t, h) {
      assert h != g && s.owner[h] != i;
    }
    PrintsKept(s, t);
  }

  lemma AbandonThreads(s: State, i: nat)
    requires ThreadsOk(s) && TableOk(s) && Live(s, i) && Holding(s.phases[i])
    ensures ThreadsOk(Abandon(s, i))
  {
    var t := Abandon(s, i);
    GuardsApart(s, i);
    assert forall g: Slot :: TreeAt(t, g) == TreeAt(s, g);
    assert forall g: Slot | g != GuardOf(s, i) :: g in t.aborted <==> g in s.aborted;
    assert t.phases == s.phases[i := Over] && t.prints == s.prints;
    OthersKept(s, t, i);
  }

  lemma InvAbandon(s: State, i: nat)
    requires Inv(s) && Live(s, i) && Holding(s.phases[i])
    ensures Inv(Abandon(s, i))
  {
    assert TableOk(Abandon(s, i)) by {
      TableRelease(s, i);
      SameThreads(Release(s, i), Abandon(s, i));
    }
    AbandonPrints(s, i);
    assert ThreadsOk(s);
    AbandonThreads(s, i);
  }

  lemma SameThreads(u: State, t: State)
    requires TableOk(u) && t == u.(aborted := t.aborted)
    ensures TableOk(t)
  {
    forall j: nat | Live(u, j) && Holding(u.phases[j]) ensures GuardOf(t, j) == GuardOf(u, j) {}
  }

  lemma InvStep(s: State, a: Action)
    requires Inv(s) && Apply(s, a).Some?
    ensures Inv(Apply(s, a).value)
  {
    match a
    case Acquire(i) => InvAcquire(s, i);
    case Check(i) => InvCheck(s, i);
    case SyncOp(i) => InvSyncOp(s, i);
    case Plan(i, removes, needed) => InvPlan(s, i, removes, needed);
    case SyncDone(i) => InvSyncDone(s, i);
    case Build(i, after) => InvBuild(s, i, after);
    case Finish(i) => InvAbandon(s, i);
    case Abort(i) => InvAbandon(s, i);
  }

  lemma {:induction false} InvRun(s: State, acts: seq<Action>)
    requires Inv(s) && Run(s, acts).Some?
    ensures Inv(Run(s, acts).value)
    decreases |acts|
  {
    if acts != [] {
      InvStep(s, acts[0]);
      InvRun(Apply(s, acts[0]).value, acts[1..]);
    }
  }
}
