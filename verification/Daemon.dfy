/** Many daemon threads at once: slots, workspaces on disk and cached
    fingerprints, one file operation at a time. A thread may fail at any point
    of a sync. */
module Daemon {
  import opened Wrappers
  import opened Protocol
  import opened Slots
  import opened Sync

  /** A directory, component by component. */
  type Dir = seq<string>

  /** A slot of the `scope`-th team and scope the daemon has to do with. */
  datatype Slot = Slot(scope: nat, index: nat)

  /** One build session as its client means it: `preferred` is the slot its login
      hashes to, `tree` what the client has, `bundle` what it guessed the daemon
      to be missing. */
  datatype Job = Job(scope: nat, preferred: nat, fingerprint: Digest, tree: Tree, bundle: seq<(string, Bytes)>)

  /** Where the session's thread stands; the phases with an index hold a guard. */
  datatype Phase =
    | Fresh
    | Probing(index: nat)
    | Bundling(index: nat, ops: seq<FileOp>)
    | Fetching(index: nat, ops: seq<FileOp>)
    | Building(index: nat, fast: bool)
    | Rejected
    | Over

  /** `meaning`, `owner`, `aborted` and `last` are no part of the daemon: the
      source tree a fingerprint stands for, which thread holds a guard, which
      slots had their latest sync abandoned, and whose sync finished last. */
  datatype State = State(
    n: nat,
    names: seq<ScopeKey>,
    dirOf: Slot -> Dir,
    jobs: seq<Job>,
    meaning: map<Digest, Tree>,
    phases: seq<Phase>,
    table: map<nat, Row>,
    prints: map<Slot, Digest>,
    disk: map<Dir, Tree>,
    owner: map<Slot, nat>,
    aborted: set<Slot>,
    last: map<Slot, nat>)

  datatype Action =
    | Acquire(i: nat)
    | Check(i: nat)
    | SyncOp(i: nat)
    | Plan(i: nat, removes: seq<string>, needed: seq<string>)
    | SyncDone(i: nat)
    | Build(i: nat, after: Tree)
    | Finish(i: nat)
    | Abort(i: nat)

  function KeyOf(s: State, i: nat): nat
    requires i < |s.jobs|
  {
    s.jobs[i].scope
  }

  predicate Holding(p: Phase) {
    p.Probing? || p.Bundling? || p.Fetching? || p.Building?
  }

  predicate Syncing(p: Phase) {
    p.Bundling? || p.Fetching?
  }

  function GuardOf(s: State, i: nat): Slot
    requires i < |s.jobs| && i < |s.phases| && Holding(s.phases[i])
  {
    Slot(KeyOf(s, i), s.phases[i].index)
  }

  /** The files of a slot. */
  function TreeAt(s: State, g: Slot): Tree {
    if s.dirOf(g) in s.disk then s.disk[s.dirOf(g)] else map[]
  }

  function RowAt(s: State, key: nat): Row {
    if key in s.table then s.table[key] else seq(s.n, _ => false)
  }

  predicate Live(s: State, i: nat) {
    i < |s.jobs| && i < |s.phases|
  }

  /** The guard is dropped: the slot is free again. */
  function Release(s: State, i: nat): State
    requires Live(s, i) && Holding(s.phases[i])
  {
    var g := GuardOf(s, i);
    var row := RowAt(s, g.scope);
    s.(phases := s.phases[i := Over],
       owner := s.owner - {g},
       table := if g.scope in s.table && g.index < |row| then s.table[g.scope := row[g.index := false]] else s.table)
  }

  ghost function DoAcquire(s: State, i: nat): Option<State> {
    if Live(s, i) && s.phases[i].Fresh? && s.jobs[i].preferred < s.n && |RowAt(s, KeyOf(s, i))| == s.n then
      var key := KeyOf(s, i);
      var row := RowAt(s, key);
      match Pick(row, s.jobs[i].preferred)
      case None => Some(s.(table := s.table[key := row], phases := s.phases[i := Rejected]))
      case Some(k) =>
        Some(s.(table := s.table[key := row[k := true]], phases := s.phases[i := Probing(k)], owner := s.owner[Slot(key, k) := i]))
    else None
  }

  ghost function DoCheck(s: State, i: nat): Option<State> {
    if Live(s, i) && s.phases[i].Probing? then
      var g := GuardOf(s, i);
      if g in s.prints && s.prints[g] == s.jobs[i].fingerprint then
        Some(s.(phases := s.phases[i := Building(g.index, true)]))
      else Some(s.(phases := s.phases[i := Bundling(g.index, Puts(s.jobs[i].bundle))]))
    else None
  }

  ghost function DoSyncOp(s: State, i: nat): Option<State> {
    if Live(s, i) && Syncing(s.phases[i]) && s.phases[i].ops != [] then
      var g := GuardOf(s, i);
      var rest := s.phases[i].ops[1..];
      Some(s.(disk := s.disk[s.dirOf(g) := ApplyOp(TreeAt(s, g), s.phases[i].ops[0])],
              phases := s.phases[i := if s.phases[i].Bundling? then Bundling(g.index, rest) else Fetching(g.index, rest)]))
    else None
  }

  function Removes(paths: seq<string>): seq<FileOp> {
    if paths == [] then [] else [Remove(paths[0])] + Removes(paths[1..])
  }

  function Fetches(paths: seq<string>, c: Tree): seq<FileOp> {
    if paths == [] then []
    else (if paths[0] in c then [Put(paths[0], c[paths[0]])] else []) + Fetches(paths[1..], c)
  }

  // With the bundle written the tree is hashed: stale files go, needed files
  // come, each in any order.
  ghost function DoPlan(s: State, i: nat, removes: seq<string>, needed: seq<string>): Option<State> {
    if Live(s, i) && s.phases[i].Bundling? && s.phases[i].ops == []
      && Plans(TreeAt(s, GuardOf(s, i)), needed, (set p <- removes), s.jobs[i].tree) then
      Some(s.(phases := s.phases[i := Fetching(s.phases[i].index, Removes(removes) + Fetches(needed, s.jobs[i].tree))]))
    else None
  }

  ghost function DoSyncDone(s: State, i: nat): Option<State> {
    if Live(s, i) && s.phases[i].Fetching? && s.phases[i].ops == [] then
      var g := GuardOf(s, i);
      Some(s.(prints := s.prints[g := s.jobs[i].fingerprint], aborted := s.aborted - {g}, last := s.last[g := i],
              phases := s.phases[i := Building(g.index, false)]))
    else None
  }

  // A build writes below `target` only.
  ghost function DoBuild(s: State, i: nat, after: Tree): Option<State> {
    if Live(s, i) && s.phases[i].Building? && Sources(after) == Sources(TreeAt(s, GuardOf(s, i))) then
      Some(s.(disk := s.disk[s.dirOf(GuardOf(s, i)) := after]))
    else None
  }

  ghost function DoFinish(s: State, i: nat): Option<State> {
    if Live(s, i) && s.phases[i].Building? then Some(Release(s, i)) else None
  }

  // An error or a panic anywhere before the fingerprint is stored.
  ghost function DoAbort(s: State, i: nat): Option<State> {
    if Live(s, i) && (s.phases[i].Probing? || Syncing(s.phases[i])) then
      var t := Release(s, i);
      Some(if Syncing(s.phases[i]) then t.(aborted := s.aborted + {GuardOf(s, i)}) else t)
    else None
  }

  ghost function Apply(s: State, a: Action): Option<State> {
    match a
    case Acquire(i) => DoAcquire(s, i)
    case Check(i) => DoCheck(s, i)
    case SyncOp(i) => DoSyncOp(s, i)
    case Plan(i, removes, needed) => DoPlan(s, i, removes, needed)
    case SyncDone(i) => DoSyncDone(s, i)
    case Build(i, after) => DoBuild(s, i, after)
    case Finish(i) => DoFinish(s, i)
    case Abort(i) => DoAbort(s, i)
  }

  ghost function Run(s: State, acts: seq<Action>): Option<State>
    decreases |acts|
  {
    if acts == [] then Some(s)
    else
      var t := Apply(s, acts[0]);
      if t.None? then None else Run(t.value, acts[1..])
  }

  /** What is assumed of the clients: fingerprints that determine the source tree. */
  ghost predicate Sane(s: State) {
    forall i | 0 <= i < |s.jobs| ::
      && s.jobs[i].scope < |s.names|
      && s.jobs[i].fingerprint in s.meaning && Sources(s.jobs[i].tree) == s.meaning[s.jobs[i].fingerprint]
  }

  /** No slot's workspace is another's, or lies inside it. */
  ghost predicate Apart(s: State) {
    forall g: Slot, h: Slot | g.scope < |s.names| && h.scope < |s.names| && s.dirOf(g) <= s.dirOf(h) :: g == h
  }

  /** The daemon starts with nobody connected and the disk holding whatever it
      holds; team names have no underscore, and no name has a slash. */
  ghost predicate Init(s: State, home: string) {
    && (forall k | 0 <= k < |s.names| :: PlainNames(s.names[k]))
    && (forall j, k | 0 <= j < k < |s.names| :: s.names[j] != s.names[k])
    && (forall g: Slot | g.scope < |s.names| ::
          s.dirOf(g) == Workspace(home, s.names[g.scope].0, s.names[g.scope].1, g.index))
    && s.n >= 1 && |s.phases| == |s.jobs|
    && (forall i | 0 <= i < |s.phases| :: s.phases[i] == Fresh)
    && s.table == map[] && s.prints == map[] && s.owner == map[] && s.aborted == {} && s.last == map[]
    && Sane(s)
  }

  /** A flag is set exactly while a guard is owned, by one thread that holds it. */
  ghost predicate TableOk(s: State) {
    && (forall key <- s.table :: |s.table[key]| == s.n)
    && (forall g <- s.owner ::
          && Live(s, s.owner[g]) && Holding(s.phases[s.owner[g]]) && GuardOf(s, s.owner[g]) == g
          && g.scope in s.table && g.index < s.n && s.table[g.scope][g.index])
    && (forall i: nat | Live(s, i) && Holding(s.phases[i]) :: GuardOf(s, i) in s.owner && s.owner[GuardOf(s, i)] == i)
    && (forall key, k: nat | key in s.table && k < s.n && s.table[key][k] :: Slot(key, k) in s.owner)
  }

  predicate BeingSynced(s: State, g: Slot) {
    g in s.owner && Live(s, s.owner[g]) && Syncing(s.phases[s.owner[g]])
  }

  /** A cached fingerprint is the last finished sync's, and unless a later sync
      was abandoned or is under way, so are the slot's sources. */
  ghost predicate PrintsOk(s: State) {
    forall g <- s.prints ::
      && g in s.last && s.last[g] < |s.jobs|
      && g.scope == KeyOf(s, s.last[g])
      && s.prints[g] == s.jobs[s.last[g]].fingerprint
      && (g !in s.aborted && !BeingSynced(s, g) ==> Sources(TreeAt(s, g)) == Sources(s.jobs[s.last[g]].tree))
  }

  ghost predicate ThreadOk(s: State, i: nat)
    requires Live(s, i)
  {
    match s.phases[i]
    case Fetching(_, ops) => Sources(ApplyOps(TreeAt(s, GuardOf(s, i)), ops)) == Sources(s.jobs[i].tree)
    case Building(_, fast) =>
      var g := GuardOf(s, i);
      && g in s.prints && s.prints[g] == s.jobs[i].fingerprint
      && (!fast ==> g !in s.aborted)
      && (g !in s.aborted ==> Sources(TreeAt(s, g)) == Sources(s.jobs[i].tree))
    case _ => true
  }

  ghost predicate Inv(s: State) {
    && s.n >= 1 && |s.phases| == |s.jobs| && Sane(s) && Apart(s)
    && TableOk(s) && PrintsOk(s)
    && forall i: nat | Live(s, i) :: ThreadOk(s, i)
  }
}
