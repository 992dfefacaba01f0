/** The write-once store on disk, shared by processes that run at once. A `put`
    looks, writes a temporary file piece by piece and renames it without
    overwriting; a `get` opens an entry and reads it piece by piece. Any of
    them may fail or die anywhere. */
module DiskCache {
  import opened Wrappers
  import opened Protocol
  import opened Strings
  import opened Paths

  /** `path_for`: two levels of directories named after the key. */
  function PathFor(root: string, key: string): string
    requires |key| >= 2
  {
    root + "/" + key[..1] + "/" + key[1..2] + "/" + key
  }

  lemma PathsDistinct(root: string, a: string, b: string)
    requires |a| == |b| && |a| >= 2 && PathFor(root, a) == PathFor(root, b)
    ensures a == b
  {
    var p, q := PathFor(root, a), PathFor(root, b);
    assert p[|p| - |a|..] == a && q[|q| - |b|..] == b;
  }

  lemma OneName(n: string)
    requires n != "" && '/' !in n && '.' !in n
    ensures Named(Split(n, '/')) == [n]
  {
    NameParts(n);
    assert '.' in ".";
  }

  /** An entry lies in a directory named by its key's second character, in one
      named by its first, below the root. */
  lemma PathParts(root: string, key: string)
    requires |key| >= 2 && '/' !in key && '.' !in key
    ensures Named(Split(PathFor(root, key), '/')) == Named(Split(root, '/')) + [[key[0]], [key[1]], key]
  {
    var a, b := [key[0]], [key[1]];
    assert key[..1] == a && key[1..2] == b;
    assert PathFor(root, key) == root + ['/'] + (a + ['/'] + (b + ['/'] + key));
    NamesConcat(root, a + ['/'] + (b + ['/'] + key));
    NamesConcat(a, b + ['/'] + key);
    NamesConcat(b, key);
    OneName(a);
    OneName(b);
    OneName(key);
  }

  /** What a process is doing. `Written` holds what the temporary file has so
      far; `Renamed` has made its file the entry but not returned yet. */
  datatype Stage =
    | Looking
    | Written(tmp: Bytes)
    | NotRenamed
    | Renamed
    | Put(wrote: bool)
    | Opening
    | Reading(got: Bytes)
    | Got(found: Option<Bytes>)
    | Failed
    | Dead(renamed: bool)

  /** A process and its one call: the path of its key, and for a `put` the
      bytes of the finished entry. */
  datatype Process = Process(path: string, entry: Bytes, stage: Stage)

  datatype State = State(files: map<string, Bytes>, procs: seq<Process>)

  datatype Action =
    | Look(i: nat)
    | Write(i: nat, n: nat)
    | Rename(i: nat)
    | RenameFails(i: nat)
    | LookAgain(i: nat)
    | Return(i: nat)
    | Open(i: nat)
    | Read(i: nat, n: nat)
    | Close(i: nat)
    | Fail(i: nat)
    | Die(i: nat)

  /** What process `p` does next, given the store: its next stage and the store
      after it. */
  function Act(files: map<string, Bytes>, p: Process, a: Action): Option<(map<string, Bytes>, Stage)> {
    match (a, p.stage)
    case (Look(_), Looking) => Some((files, if p.path in files then Put(false) else Written([])))
    case (Write(_, n), Written(tmp)) =>
      if tmp <= p.entry && |tmp| + n <= |p.entry| then Some((files, Written(p.entry[..|tmp| + n]))) else None
    case (Rename(_), Written(tmp)) =>
      if tmp != p.entry then None
      else if p.path in files then Some((files, NotRenamed))
      else Some((files[p.path := tmp], Renamed))
    case (RenameFails(_), Written(tmp)) => if tmp == p.entry then Some((files, NotRenamed)) else None
    case (LookAgain(_), NotRenamed) => Some((files, if p.path in files then Put(false) else Failed))
    case (Return(_), Renamed) => Some((files, Put(true)))
    case (Open(_), Opening) => Some((files, if p.path in files then Reading([]) else Got(None)))
    case (Read(_, n), Reading(got)) =>
      if p.path in files && |got| + n <= |files[p.path]| then Some((files, Reading(got + files[p.path][|got|..|got| + n]))) else None
    case (Close(_), Reading(got)) =>
      if p.path in files && |got| == |files[p.path]| then Some((files, Got(Some(got)))) else None
    case (Fail(_), stage) =>
      if stage.Looking? || stage.Written? || stage.Opening? || stage.Reading? then Some((files, Failed)) else None
    case (Die(_), stage) =>
      if stage.Put? || stage.Got? || stage.Failed? || stage.Dead? then None else Some((files, Dead(stage.Renamed?)))
    case _ => None
  }

  function Apply(s: State, a: Action): Option<State> {
    if a.i < |s.procs| then
      match Act(s.files, s.procs[a.i], a)
      case None => None
      case Some((files, stage)) => Some(State(files, s.procs[a.i := s.procs[a.i].(stage := stage)]))
    else None
  }

  function Run(s: State, acts: seq<Action>): Option<State>
    decreases |acts|
  {
    if acts == [] then Some(s)
    else
      var t := Apply(s, acts[0]);
      if t.None? then None else Run(t.value, acts[1..])
  }

  ghost predicate Init(s: State) {
    forall i | 0 <= i < |s.procs| :: s.procs[i].stage.Looking? || s.procs[i].stage.Opening?
  }

  /** The rename of this process succeeded. */
  predicate Won(p: Process) {
    p.stage.Renamed? || p.stage == Put(true) || p.stage == Dead(true)
  }

  /** An entry is what was there at the start or the whole entry of a winner. */
  ghost predicate Complete(s0: State, s: State, path: string, b: Bytes) {
    if path in s0.files then b == s0.files[path]
    else exists i | 0 <= i < |s.procs| :: Won(s.procs[i]) && s.procs[i].path == path && s.procs[i].entry == b
  }

  ghost predicate SameCalls(s0: State, s: State) {
    && |s.procs| == |s0.procs|
    && forall i | 0 <= i < |s.procs| :: s.procs[i].path == s0.procs[i].path && s.procs[i].entry == s0.procs[i].entry
  }

  ghost predicate EntriesOk(s0: State, s: State) {
    && (forall path <- s0.files :: path in s.files)
    && (forall path <- s.files :: Complete(s0, s, path, s.files[path]))
  }

  ghost predicate WinnersOk(s0: State, s: State) {
    && (forall i | 0 <= i < |s.procs| && Won(s.procs[i]) :: s.procs[i].path in s.files && s.procs[i].path !in s0.files)
    && (forall i, j | 0 <= i < j < |s.procs| && Won(s.procs[i]) && Won(s.procs[j]) :: s.procs[i].path != s.procs[j].path)
  }

  ghost predicate StageOk(files: map<string, Bytes>, p: Process) {
    match p.stage
    case Written(tmp) => tmp <= p.entry
    case Reading(got) => p.path in files && got <= files[p.path]
    case Got(found) => found.Some? ==> p.path in files && found.value == files[p.path]
    case Put(_) => p.path in files
    case Renamed => p.path in files
    case _ => true
  }

  ghost predicate StagesOk(s: State) {
    forall i | 0 <= i < |s.procs| :: StageOk(s.files, s.procs[i])
  }

  ghost predicate Inv(s0: State, s: State) {
    SameCalls(s0, s) && EntriesOk(s0, s) && WinnersOk(s0, s) && StagesOk(s)
  }

  ghost predicate Grows(files: map<string, Bytes>, later: map<string, Bytes>) {
    forall path <- files :: path in later && later[path] == files[path]
  }

  /** One process's step: the store changes only by the rename of a complete
      file to a path that was free, and only that makes a winner. */
  lemma ActFacts(files: map<string, Bytes>, p: Process, a: Action)
    requires Act(files, p, a).Some? && StageOk(files, p)
    ensures var (later, stage) := Act(files, p, a).value;
            && Grows(files, later) && StageOk(later, p.(stage := stage))
            && (if Won(p) || !Won(p.(stage := stage)) then later == files && (Won(p) ==> Won(p.(stage := stage)))
                else p.path !in files && later == files[p.path := p.entry])
  {
  }

  lemma StagesKept(s: State, t: State, k: nat)
    requires StagesOk(s) && Grows(s.files, t.files) && k < |s.procs| && |t.procs| == |s.procs|
    requires t.procs == s.procs[k := t.procs[k]] && StageOk(t.files, t.procs[k])
    ensures StagesOk(t)
  {
    forall i | 0 <= i < |t.procs| ensures StageOk(t.files, t.procs[i]) {
      assert StageOk(s.files, s.procs[i]);
    }
  }

  lemma EntriesKept(s0: State, s: State, t: State, k: nat)
    requires EntriesOk(s0, s) && Grows(s.files, t.files) && k < |s.procs| && |t.procs| == |s.procs|
    requires t.procs == s.procs[k := s.procs[k].(stage := t.procs[k].stage)] && (Won(s.procs[k]) ==> Won(t.procs[k]))
    requires t.files == s.files || (Won(t.procs[k]) && t.files == s.files[t.procs[k].path := t.procs[k].entry])
    requires s.procs[k].path !in s.files || t.files == s.files
    ensures EntriesOk(s0, t)
  {
    forall path <- t.files ensures Complete(s0, t, path, t.files[path]) {
      if path in s.files {
        assert Complete(s0, s, path, s.files[path]);
        if path !in s0.files {
          var i :| 0 <= i < |s.procs| && Won(s.procs[i]) && s.procs[i].path == path && s.procs[i].entry == s.files[path];
          assert Won(t.procs[i]) && t.procs[i].path == path && t.procs[i].entry == s.files[path];
        }
      } else {
        assert t.procs[k].path == path && t.procs[k].entry == t.files[path];
      }
    }
  }

  lemma WinnersKept(s0: State, s: State, t: State, k: nat)
    requires WinnersOk(s0, s) && EntriesOk(s0, s) && Grows(s.files, t.files) && k < |s.procs| && |t.procs| == |s.procs|
    requires t.procs == s.procs[k := s.procs[k].(stage := t.procs[k].stage)]
    requires Won(t.procs[k]) && !Won(s.procs[k]) ==> s.procs[k].path !in s.files && s.procs[k].path in t.files
    ensures WinnersOk(s0, t)
  {
  }

  lemma InvKept(s0: State, s: State, t: State, k: nat)
    requires Inv(s0, s) && k < |s.procs| && |t.procs| == |s.procs|
    requires t.procs == s.procs[k := s.procs[k].(stage := t.procs[k].stage)]
    requires Grows(s.files, t.files) && StageOk(t.files, t.procs[k])
    requires if Won(s.procs[k]) || !Won(t.procs[k]) then t.files == s.files && (Won(s.procs[k]) ==> Won(t.procs[k]))
             else s.procs[k].path !in s.files && t.files == s.files[s.procs[k].path := s.procs[k].entry]
    ensures Inv(s0, t)
  {
    StagesKept(s, t, k);
    EntriesKept(s0, s, t, k);
    WinnersKept(s0, s, t, k);
  }

  lemma InvStep(s0: State, s: State, a: Action)
    requires Inv(s0, s) && Apply(s, a).Some?
    ensures Inv(s0, Apply(s, a).value) && Grows(s.files, Apply(s, a).value.files)
  {
    assert StageOk(s.files, s.procs[a.i]);
    ActFacts(s.files, s.procs[a.i], a);
    InvKept(s0, s, Apply(s, a).value, a.i);
  }

  lemma {:induction false} InvRun(s0: State, s: State, acts: seq<Action>)
    requires Inv(s0, s) && Run(s, acts).Some?
    ensures Inv(s0, Run(s, acts).value)
    ensures Grows(s.files, Run(s, acts).value.files)
    decreases |acts|
  {
    if acts != [] {
      InvStep(s0, s, acts[0]);
      InvRun(s0, Apply(s, acts[0]).value, acts[1..]);
    }
  }

  predicate Wrote(s: State, i: nat) {
    i < |s.procs| && s.procs[i].stage == Put(true)
  }

  /** At most one `put` to a path ever succeeds in writing it, none if the entry
      was there before, and whoever returns normally leaves an entry behind. */
  lemma OneWriter(s0: State, acts: seq<Action>, i: nat, j: nat)
    requires Init(s0) && Run(s0, acts).Some?
    ensures var t := Run(s0, acts).value;
            && |t.procs| == |s0.procs|
            && (Wrote(t, i) && Wrote(t, j) && t.procs[i].path == t.procs[j].path ==> i == j)
            && (Wrote(t, i) ==> t.procs[i].path !in s0.files && t.procs[i].path in t.files
                                && t.files[t.procs[i].path] == s0.procs[i].entry)
            && (i < |t.procs| && t.procs[i].stage == Put(false) ==> t.procs[i].path in t.files)
  {
    InvRun(s0, s0, acts);
    var t := Run(s0, acts).value;
    if Wrote(t, i) {
      assert Won(t.procs[i]);
      assert Complete(s0, t, t.procs[i].path, t.files[t.procs[i].path]);
    }
  }

  /** An entry once present never changes. */
  lemma EntriesNeverChange(s0: State, before: seq<Action>, after: seq<Action>, path: string)
    requires Init(s0) && Run(s0, before).Some? && Run(Run(s0, before).value, after).Some?
    requires path in Run(s0, before).value.files
    ensures var t := Run(Run(s0, before).value, after).value;
            path in t.files && t.files[path] == Run(s0, before).value.files[path]
  {
    InvRun(s0, s0, before);
    InvRun(s0, Run(s0, before).value, after);
  }

  /** A `get` sees nothing, or the whole of an entry that was there at the start
      or that exactly one `put` to that path wrote. */
  lemma GetsAreWhole(s0: State, acts: seq<Action>, i: nat)
    requires Init(s0) && Run(s0, acts).Some?
    ensures var t := Run(s0, acts).value;
            i < |t.procs| && t.procs[i].stage.Got? && t.procs[i].stage.found.Some? ==>
              Complete(s0, t, t.procs[i].path, t.procs[i].stage.found.value)
  {
    InvRun(s0, s0, acts);
    var t := Run(s0, acts).value;
    if i < |t.procs| && t.procs[i].stage.Got? && t.procs[i].stage.found.Some? {
      assert StageOk(t.files, t.procs[i]);
      assert Complete(s0, t, t.procs[i].path, t.files[t.procs[i].path]);
    }
  }

  /** One process's calls as they run. `meanwhile` is what the others put while
      it is at work; they overwrite nothing either. */
  class Cache {
    var files: map<string, Bytes>

    constructor (files: map<string, Bytes>)
      ensures this.files == files
    {
      this.files := files;
    }

    method OthersPut(added: map<string, Bytes>)
      modifies this
      ensures files == added + old(files) && Grows(old(files), files)
    {
      files := added + files;
    }

    /** Writes the temporary file `step` bytes at a time. */
    method WriteAll(entry: Bytes, step: nat) returns (tmp: Bytes)
      requires step > 0
      ensures tmp == entry
    {
      tmp := [];
      while |tmp| < |entry|
        invariant tmp <= entry
        decreases |entry| - |tmp|
      {
        var n := if |tmp| + step < |entry| then |tmp| + step else |entry|;
        tmp := entry[..n];
      }
    }

    /** None is an error: the rename failed though nothing was there. */
    method Put(path: string, entry: Bytes, step: nat, meanwhile: map<string, Bytes>, renameFails: bool) returns (wrote: Option<bool>)
      requires step > 0
      modifies this
      ensures Grows(old(files), files)
      ensures wrote == Some(true) <==> path !in old(files) && path !in meanwhile && !renameFails
      ensures wrote == Some(true) ==> files == (meanwhile + old(files))[path := entry]
      ensures wrote == Some(false) <==> path in old(files) || path in meanwhile
      ensures wrote != Some(true) ==> files == old(files) || files == meanwhile + old(files)
    {
      if path in files {
        return Some(false);
      }
      var tmp := WriteAll(entry, step);
      OthersPut(meanwhile);
      if path !in files && !renameFails {
        files := files[path := tmp];
        return Some(true);
      }
      wrote := if path in files then Some(false) else None;
    }

    /** Reads an entry piece by piece while the others go on. */
    method Get(path: string, step: nat, meanwhile: map<string, Bytes>) returns (found: Option<Bytes>)
      requires step > 0
      modifies this
      ensures Grows(old(files), files)
      ensures found == if path in old(files) then Some(old(files)[path]) else None
    {
      if path !in files {
        return None;
      }
      var got: Bytes := [];
      while |got| < |files[path]|
        invariant path in files && files[path] == old(files)[path] && Grows(old(files), files)
        invariant got <= files[path]
        decreases |files[path]| - |got|
      {
        OthersPut(meanwhile);
        var n := if |got| + step < |files[path]| then |got| + step else |files[path]|;
        got := got + files[path][|got|..n];
      }
      assert got == files[path];
      found := Some(got);
    }
  }
}
