/** What holds after every interleaving of daemon threads, and how an
    abandoned sync breaks the fast path. */
module DaemonTheorems {
  import opened Wrappers
  import opened Slots
  import opened Sync
  import Strings
  import opened Daemon
  import opened DaemonSafety

  predicate Holds(s: State, i: nat, g: Slot) {
    Live(s, i) && Holding(s.phases[i]) && GuardOf(s, i) == g
  }

  predicate FlagSet(s: State, g: Slot) {
    g.index < |RowAt(s, g.scope)| && RowAt(s, g.scope)[g.index]
  }

  /** A flag is set exactly while some thread holds that slot, never more than
      one; and no two threads work in one directory, or one inside another. */
  lemma SlotExclusion(s: State, home: string, acts: seq<Action>, g: Slot)
    requires Init(s, home) && Run(s, acts).Some?
    ensures var t := Run(s, acts).value;
            && (FlagSet(t, g) <==> exists i: nat :: Holds(t, i, g))
            && forall i: nat, j: nat, h: Slot | Holds(t, i, g) && Holds(t, j, h) && t.dirOf(g) <= t.dirOf(h) :: i == j && g == h
  {
    var t := Run(s, acts).value;
    InitInv(s, home);
    InvRun(s, acts);
    if FlagSet(t, g) {
      assert g.scope in t.table && t.table[g.scope][g.index];
      assert Slot(g.scope, g.index) == g && g in t.owner;
      assert Holds(t, t.owner[g], g);
    }
    forall i: nat | Holds(t, i, g) ensures FlagSet(t, g) && t.owner[g] == i {}
    forall i: nat, j: nat, h: Slot | Holds(t, i, g) && Holds(t, j, h) && t.dirOf(g) <= t.dirOf(h) ensures i == j && g == h {
      assert g.scope < |t.names| && h.scope < |t.names|;
    }
  }

  /** Some thread holds slot `k` of the scope. */
  ghost predicate Taken(s: State, scope: nat, k: nat) {
    exists i: nat :: Holds(s, i, Slot(scope, k))
  }

  /** An acquisition is refused exactly when every slot of the scope is held;
      otherwise it yields the preferred slot, or if that is held the lowest
      free one. */
  lemma AcquireExactly(s: State, home: string, acts: seq<Action>, i: nat)
    requires Init(s, home) && Run(s, acts).Some? && DoAcquire(Run(s, acts).value, i).Some?
    ensures var t := Run(s, acts).value;
            var u := DoAcquire(t, i).value;
            var scope, preferred := t.jobs[i].scope, t.jobs[i].preferred;
            && (u.phases[i].Rejected? <==> forall k: nat | k < t.n :: Taken(t, scope, k))
            && (!u.phases[i].Rejected? ==>
                  && u.phases[i].Probing? && u.phases[i].index < t.n
                  && !Taken(t, scope, u.phases[i].index)
                  && (if Taken(t, scope, preferred) then forall k: nat | k < u.phases[i].index :: Taken(t, scope, k)
                      else u.phases[i].index == preferred))
  {
    var t := Run(s, acts).value;
    var scope := t.jobs[i].scope;
    forall k: nat | k < t.n ensures RowAt(t, scope)[k] <==> Taken(t, scope, k) {
      SlotExclusion(s, home, acts, Slot(scope, k));
    }
  }

  /** After any run: the cached fingerprint of a slot is that of the last
      session to finish its sync there, and while nobody is syncing the slot
      and no later sync was abandoned, the slot has that session's sources. */
  lemma CachedFingerprintIsLastSync(s: State, home: string, acts: seq<Action>, g: Slot)
    requires Init(s, home) && Run(s, acts).Some? && g in Run(s, acts).value.prints
    ensures var t := Run(s, acts).value;
            && g in t.last && t.last[g] < |t.jobs|
            && t.prints[g] == t.jobs[t.last[g]].fingerprint && t.jobs[t.last[g]].scope == g.scope
            && (g !in t.aborted && !BeingSynced(t, g) ==> Sources(TreeAt(t, g)) == Sources(t.jobs[t.last[g]].tree))
  {
    InitInv(s, home);
    InvRun(s, acts);
  }

  /** After any run every build, on the fast path or after a sync, has exactly
      its own client's sources, unless it took the fast path in a slot whose
      latest sync was abandoned. */
  lemma BuildsTheRightTree(s: State, home: string, acts: seq<Action>, i: nat)
    requires Init(s, home) && Run(s, acts).Some?
    requires var t := Run(s, acts).value; Live(t, i) && t.phases[i].Building?
    ensures var t := Run(s, acts).value;
            (t.phases[i].fast && GuardOf(t, i) in t.aborted) || Sources(TreeAt(t, GuardOf(t, i))) == Sources(t.jobs[i].tree)
  {
    InitInv(s, home);
    InvRun(s, acts);
    assert ThreadOk(Run(s, acts).value, i);
  }

  lemma {:induction false} SeqOf(xs: set<string>, head: string) returns (q: seq<string>)
    requires head in xs
    ensures q != [] && q[0] == head && (set p <- q) == xs
    decreases |xs|
  {
    var rest := xs - {head};
    if rest == {} {
      q := [head];
      assert xs == {head};
    } else {
      var next :| next in rest;
      var tail := SeqOf(rest, next);
      q := [head] + tail;
      assert (set p <- q) == {head} + set p <- tail;
    }
  }

  /** Some plan for bringing `t` to `c` starts with a change to the sources. */
  ghost predicate Disturbs(t: Tree, removes: seq<string>, needed: seq<string>, c: Tree) {
    var ops := Removes(removes) + Fetches(needed, c);
    && Plans(t, needed, (set p <- removes), c)
    && ops != [] && Sources(ApplyOp(t, ops[0])) != Sources(t)
  }

  lemma RemoveDisturbs(t: Tree, stale: set<string>, wanted: set<string>, needed: seq<string>, p: string, c: Tree)
    requires p in stale && (set x <- needed) == wanted
    requires forall x :: x in stale <==> x in Sources(t) && x !in c
    requires forall x :: x in wanted <==> x in c && !(x in Sources(t) && t[x] == c[x])
    ensures exists removes :: Disturbs(t, removes, needed, c)
  {
    var removes := SeqOf(stale, p);
    var ops := Removes(removes) + Fetches(needed, c);
    assert ops[0] == Remove(p);
    assert p in Sources(t) && p !in Sources(ApplyOp(t, ops[0]));
    assert forall x :: x in needed <==> x in wanted;
    assert Disturbs(t, removes, needed, c);
  }

  lemma PutDisturbs(t: Tree, wanted: set<string>, p: string, c: Tree)
    requires p in wanted && !UnderTarget(p)
    requires forall x | x in Sources(t) :: x in c
    requires forall x :: x in wanted <==> x in c && !(x in Sources(t) && t[x] == c[x])
    ensures exists needed :: Disturbs(t, [], needed, c)
  {
    var needed := SeqOf(wanted, p);
    var ops := Removes([]) + Fetches(needed, c);
    assert ops[0] == Put(p, c[p]);
    assert p in Sources(ApplyOp(t, ops[0])) && Sources(ApplyOp(t, ops[0]))[p] == c[p];
    assert forall x :: x in needed <==> x in wanted;
    assert (set x: string <- []) == {};
    assert Disturbs(t, [], needed, c);
  }

  lemma DifferentSourcesDisturb(t: Tree, c: Tree)
    requires Sources(t) != Sources(c)
    ensures exists removes, needed :: Disturbs(t, removes, needed, c)
  {
    var stale := set x | x in Sources(t) && x !in c;
    var wanted := set x | x in c && !(x in Sources(t) && t[x] == c[x]);
    if stale != {} {
      var p :| p in stale;
      var needed: seq<string> := [];
      if q :| q in wanted { needed := SeqOf(wanted, q); }
      assert (set x <- needed) == wanted;
      RemoveDisturbs(t, stale, wanted, needed, p, c);
    } else {
      assert forall x | x in Sources(t) :: x in c by {
        forall x | x in Sources(t) ensures x in c { assert x !in stale; }
      }
      assert (forall p :: p in Sources(c) ==> p in Sources(t) && t[p] == c[p]) ==> Sources(t) == Sources(c);
      var p :| p in Sources(c) && !(p in Sources(t) && t[p] == c[p]);
      assert p in wanted && !UnderTarget(p);
      PutDisturbs(t, wanted, p, c);
    }
  }

  ghost predicate Chooses(s: State, i: nat, g: Slot) {
    Live(s, i) && s.phases[i].Fresh? && s.jobs[i].scope == g.scope && s.jobs[i].preferred < s.n
    && |RowAt(s, g.scope)| == s.n && Pick(RowAt(s, g.scope), s.jobs[i].preferred) == Some(g.index)
  }

  /** From `s` thread `i` has got to `phase`, and the slot's files to `tree`. */
  ghost predicate Reached(s: State, t: State, i: nat, g: Slot, phase: Phase, tree: Tree) {
    && i < |s.phases| && g.index < |RowAt(s, g.scope)|
    && t.n == s.n && t.jobs == s.jobs && t.prints == s.prints && t.dirOf == s.dirOf
    && t.phases == s.phases[i := phase]
    && g.scope in t.table && t.table[g.scope] == RowAt(s, g.scope)[g.index := Holding(phase)]
    && TreeAt(t, g) == tree
  }

  lemma Acquires(s: State, i: nat, g: Slot)
    requires Chooses(s, i, g)
    ensures DoAcquire(s, i).Some? && Reached(s, DoAcquire(s, i).value, i, g, Probing(g.index), TreeAt(s, g))
  {
  }

  lemma Misses(s: State, t: State, i: nat, g: Slot, tree: Tree)
    requires Live(s, i) && s.jobs[i].scope == g.scope && Reached(s, t, i, g, Probing(g.index), tree)
    requires !(g in s.prints && s.prints[g] == s.jobs[i].fingerprint)
    ensures DoCheck(t, i).Some? && Reached(s, DoCheck(t, i).value, i, g, Bundling(g.index, Puts(s.jobs[i].bundle)), tree)
  {
    assert GuardOf(t, i) == g;
  }

  lemma Hits(s: State, t: State, i: nat, g: Slot, tree: Tree)
    requires Live(s, i) && s.jobs[i].scope == g.scope && Reached(s, t, i, g, Probing(g.index), tree)
    requires g in s.prints && s.prints[g] == s.jobs[i].fingerprint
    ensures DoCheck(t, i).Some? && Reached(s, DoCheck(t, i).value, i, g, Building(g.index, true), tree)
  {
    assert GuardOf(t, i) == g;
  }

  lemma PlansIts(s: State, t: State, i: nat, g: Slot, removes: seq<string>, needed: seq<string>, tree: Tree)
    requires Live(s, i) && s.jobs[i].scope == g.scope && Reached(s, t, i, g, Bundling(g.index, []), tree)
    requires Plans(tree, needed, (set p <- removes), s.jobs[i].tree)
    ensures DoPlan(t, i, removes, needed).Some?
    ensures Reached(s, DoPlan(t, i, removes, needed).value, i, g,
                    Fetching(g.index, Removes(removes) + Fetches(needed, s.jobs[i].tree)), tree)
  {
    assert GuardOf(t, i) == g;
  }

  lemma WritesOne(s: State, t: State, i: nat, g: Slot, ops: seq<FileOp>, tree: Tree)
    requires Live(s, i) && s.jobs[i].scope == g.scope && Reached(s, t, i, g, Fetching(g.index, ops), tree) && ops != []
    ensures DoSyncOp(t, i).Some? && Reached(s, DoSyncOp(t, i).value, i, g, Fetching(g.index, ops[1..]), ApplyOp(tree, ops[0]))
  {
    assert GuardOf(t, i) == g;
  }

  lemma GivesUp(s: State, t: State, i: nat, g: Slot, ops: seq<FileOp>, tree: Tree)
    requires Live(s, i) && s.jobs[i].scope == g.scope && Reached(s, t, i, g, Fetching(g.index, ops), tree)
    ensures DoAbort(t, i).Some? && Reached(s, DoAbort(t, i).value, i, g, Over, tree)
  {
    assert GuardOf(t, i) == g;
  }

  lemma RunCons(s: State, a: Action, rest: seq<Action>)
    requires Apply(s, a).Some?
    ensures Run(s, [a] + rest) == Run(Apply(s, a).value, rest)
  {
    assert ([a] + rest)[1..] == rest;
  }

  lemma {:induction false} RunAppend(s: State, a: seq<Action>, b: seq<Action>)
    requires Run(s, a).Some?
    ensures Run(s, a + b) == Run(Run(s, a).value, b)
    decreases |a|
  {
    if a == [] {
      assert a + b == b;
    } else {
      assert (a + b)[0] == a[0] && (a + b)[1..] == a[1..] + b;
      RunAppend(Apply(s, a[0]).value, a[1..], b);
    }
  }

  lemma MissesAndPlans(s: State, b: nat, g: Slot, removes: seq<string>, needed: seq<string>) returns (acts: seq<Action>, u: State)
    requires Chooses(s, b, g) && s.jobs[b].bundle == []
    requires !(g in s.prints && s.prints[g] == s.jobs[b].fingerprint)
    requires Plans(TreeAt(s, g), needed, (set p <- removes), s.jobs[b].tree)
    ensures Run(s, acts) == Some(u)
    ensures Reached(s, u, b, g, Fetching(g.index, Removes(removes) + Fetches(needed, s.jobs[b].tree)), TreeAt(s, g))
  {
    Acquires(s, b, g);
    var s1 := DoAcquire(s, b).value;
    Misses(s, s1, b, g, TreeAt(s, g));
    var s2 := DoCheck(s1, b).value;
    assert Puts([]) == [];
    PlansIts(s, s2, b, g, removes, needed, TreeAt(s, g));
    u := DoPlan(s2, b, removes, needed).value;
    var plan := [Plan(b, removes, needed)] + [];
    RunCons(s2, Plan(b, removes, needed), []);
    RunCons(s1, Check(b), plan);
    RunCons(s, Acquire(b), [Check(b)] + plan);
    acts := [Acquire(b)] + ([Check(b)] + plan);
  }

  lemma WritesAndGivesUp(s: State, t: State, b: nat, g: Slot, ops: seq<FileOp>, tree: Tree) returns (acts: seq<Action>, u: State)
    requires Live(s, b) && s.jobs[b].scope == g.scope && Reached(s, t, b, g, Fetching(g.index, ops), tree) && ops != []
    ensures Run(t, acts) == Some(u) && Reached(s, u, b, g, Over, ApplyOp(tree, ops[0]))
  {
    WritesOne(s, t, b, g, ops, tree);
    var v := DoSyncOp(t, b).value;
    GivesUp(s, v, b, g, ops[1..], ApplyOp(tree, ops[0]));
    u := DoAbort(v, b).value;
    RunCons(v, Abort(b), []);
    RunCons(t, SyncOp(b), [Abort(b)] + []);
    acts := [SyncOp(b)] + ([Abort(b)] + []);
  }

  /** A thread can take a free slot, miss, and give up after one file. */
  lemma AbandonedSyncRuns(s: State, b: nat, g: Slot, removes: seq<string>, needed: seq<string>) returns (acts: seq<Action>, u: State)
    requires Chooses(s, b, g) && s.jobs[b].bundle == []
    requires !(g in s.prints && s.prints[g] == s.jobs[b].fingerprint)
    requires Disturbs(TreeAt(s, g), removes, needed, s.jobs[b].tree)
    ensures Run(s, acts) == Some(u)
    ensures exists tree :: Sources(tree) != Sources(TreeAt(s, g)) && Reached(s, u, b, g, Over, tree)
  {
    var first, t := MissesAndPlans(s, b, g, removes, needed);
    var second, v := WritesAndGivesUp(s, t, b, g, Removes(removes) + Fetches(needed, s.jobs[b].tree), TreeAt(s, g));
    RunAppend(s, first, second);
    acts, u := first + second, v;
  }

  lemma StillChooses(s: State, u: State, a: nat, b: nat, g: Slot, tree: Tree)
    requires Chooses(s, a, g) && Reached(s, u, b, g, Over, tree) && a != b
    ensures Chooses(u, a, g)
  {
    assert RowAt(u, g.scope) == RowAt(s, g.scope);
  }

  lemma FastPathRuns(u: State, a: nat, g: Slot) returns (acts: seq<Action>, t: State)
    requires Chooses(u, a, g) && g in u.prints && u.prints[g] == u.jobs[a].fingerprint
    ensures Run(u, acts) == Some(t) && Reached(u, t, a, g, Building(g.index, true), TreeAt(u, g))
  {
    Acquires(u, a, g);
    var v := DoAcquire(u, a).value;
    Hits(u, v, a, g, TreeAt(u, g));
    RunCons(u, Acquire(a), [Check(a)] + []);
    RunCons(v, Check(a), []);
    acts, t := [Acquire(a)] + ([Check(a)] + []), DoCheck(v, a).value;
  }

  /** Session `a` ends up building in `g`, on sources that are not its own. */
  ghost predicate BuildsTheWrongTree(s: State, acts: seq<Action>, a: nat, g: Slot) {
    && a < |s.jobs|
    && Run(s, acts).Some?
    && var t := Run(s, acts).value;
    && Holds(t, a, g) && t.phases[a].Building? && t.jobs == s.jobs
    && Sources(TreeAt(t, g)) != Sources(s.jobs[a].tree)
  }

  lemma PoisonedBy(s: State, a: nat, b: nat, g: Slot, removes: seq<string>, needed: seq<string>)
    requires Chooses(s, a, g) && Chooses(s, b, g) && a != b && s.jobs[b].bundle == []
    requires g in s.prints && s.prints[g] == s.jobs[a].fingerprint && s.prints[g] != s.jobs[b].fingerprint
    requires Sources(TreeAt(s, g)) == Sources(s.jobs[a].tree)
    requires Disturbs(TreeAt(s, g), removes, needed, s.jobs[b].tree)
    ensures exists acts :: BuildsTheWrongTree(s, acts, a, g)
  {
    var first, u := AbandonedSyncRuns(s, b, g, removes, needed);
    var tree :| Sources(tree) != Sources(TreeAt(s, g)) && Reached(s, u, b, g, Over, tree);
    StillChooses(s, u, a, b, g, tree);
    var second, t := FastPathRuns(u, a, g);
    RunAppend(s, first, second);
    assert BuildsTheWrongTree(s, first + second, a, g);
  }

  /** The exception is real. Wherever a fingerprint is cached for session `a`
      and the slot has its sources, any other session `b` in that slot with
      different sources can abandon its sync after a single file, and then
      `a` takes the fast path onto sources that are not its own. */
  lemma AbandonedSyncPoisons(s: State, a: nat, b: nat, g: Slot)
    requires Chooses(s, a, g) && Chooses(s, b, g) && a != b && s.jobs[b].bundle == []
    requires g in s.prints && s.prints[g] == s.jobs[a].fingerprint && s.prints[g] != s.jobs[b].fingerprint
    requires Sources(TreeAt(s, g)) == Sources(s.jobs[a].tree) && Sources(s.jobs[a].tree) != Sources(s.jobs[b].tree)
    ensures exists acts :: BuildsTheWrongTree(s, acts, a, g)
  {
    DifferentSourcesDisturb(TreeAt(s, g), s.jobs[b].tree);
    var removes, needed :| Disturbs(TreeAt(s, g), removes, needed, s.jobs[b].tree);
    PoisonedBy(s, a, b, g, removes, needed);
  }

  /** What a session that has nothing to fetch leaves: its fingerprint. */
  lemma SyncsAndFinishes(s: State, c: nat, g: Slot) returns (acts: seq<Action>, t: State)
    requires Chooses(s, c, g) && s.jobs[c].bundle == []
    requires !(g in s.prints && s.prints[g] == s.jobs[c].fingerprint)
    requires Plans(TreeAt(s, g), [], {}, s.jobs[c].tree)
    ensures Run(s, acts) == Some(t)
    ensures t.n == s.n && t.jobs == s.jobs && t.phases == s.phases[c := Over] && RowAt(t, g.scope) == RowAt(s, g.scope)
    ensures g in t.prints && t.prints[g] == s.jobs[c].fingerprint && TreeAt(t, g) == TreeAt(s, g)
  {
    var none: set<string> := {};
    assert (set p: string <- []) == none;
    var first, u := MissesAndPlans(s, c, g, [], []);
    assert Removes([]) + Fetches([], s.jobs[c].tree) == [];
    assert GuardOf(u, c) == g;
    var v := DoSyncDone(u, c).value;
    assert GuardOf(v, c) == g && v.phases == s.phases[c := Building(g.index, false)];
    t := DoFinish(v, c).value;
    RunCons(v, Finish(c), []);
    RunCons(u, SyncDone(c), [Finish(c)] + []);
    RunAppend(s, first, [SyncDone(c)] + ([Finish(c)] + []));
    acts := first + ([SyncDone(c)] + ([Finish(c)] + []));
    assert t.table[g.scope] == RowAt(s, g.scope)[g.index := true][g.index := false];
  }

  /** One slot of one scope; two clients with no files, one with one file. */
  function Sample(home: string): State {
    var empty, other := Job(0, 0, [0], map[], []), Job(0, 0, [1], map["a" := []], []);
    State(1, [("t", "s")], (g: Slot) => Workspace(home, "t", "s", g.index), [empty, other, empty],
          map[[0] := map[], [1] := map["a" := []]], [Fresh, Fresh, Fresh], map[], map[], map[], map[], {}, map[])
  }

  lemma OneFile()
    ensures Sources(map["a" := []]) == map["a" := []] && Sources(map[]) == map[]
    ensures Sources(map["a" := []]) != Sources(map[])
  {
    Strings.SplitNone("a", '/');
    assert !UnderTarget("a") by { assert |"target"| != |"a"|; }
    assert "a" in Sources(map["a" := []]);
  }

  lemma SampleStarts(home: string)
    ensures Init(Sample(home), home)
  {
    OneFile();
    var s := Sample(home);
    forall i | 0 <= i < |s.jobs|
      ensures s.jobs[i].scope < |s.names|
      ensures s.jobs[i].fingerprint in s.meaning && Sources(s.jobs[i].tree) == s.meaning[s.jobs[i].fingerprint]
    {
    }
  }

  lemma SamplePoisons(home: string) returns (acts: seq<Action>)
    ensures BuildsTheWrongTree(Sample(home), acts, 0, Slot(0, 0))
  {
    var s, g := Sample(home), Slot(0, 0);
    OneFile();
    assert RowAt(s, 0) == [false];
    assert Chooses(s, 2, g);
    var first, t := SyncsAndFinishes(s, 2, g);
    assert Chooses(t, 0, g) && Chooses(t, 1, g);
    AbandonedSyncPoisons(t, 0, 1, g);
    var second :| BuildsTheWrongTree(t, second, 0, g);
    RunAppend(s, first, second);
    acts := first + second;
  }

  /** From a daemon that has served nobody a fast path can end up on another
      client's sources. */
  lemma WrongTreeIsReachable(home: string)
    ensures exists s, acts, a, g :: Init(s, home) && BuildsTheWrongTree(s, acts, a, g)
  {
    SampleStarts(home);
    var acts := SamplePoisons(home);
  }
}
