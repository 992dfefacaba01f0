/** The wrapper around rustc: restore the outputs of a command line from the
    cache, or run rustc and keep what it wrote. Any access to disk may fail. */
module DropPoint {
  import opened Wrappers
  import opened RustcTable
  import opened RustcArgs
  import Strings
  import opened Paths
  import opened Parse
  import opened ParseMeaning
  import opened Digest
  import opened KeyInvariance
  import KeyCollisions

  datatype File = File(bytes: string, mode: nat)

  /** Files by directory and name. */
  type Disk = map<(string, string), File>

  /** A cache entry: its members by name. */
  type Archive = map<string, File>

  /** A command line, where it is given, and which `version` of the sources, the
      environment and everything else that rustc reads it finds. */
  datatype Call = Call(args: seq<string>, env: Env, version: nat)

  /** What running rustc comes to: its exit code and the files it writes, by
      name, into the output directory. */
  datatype Compiled = Compiled(code: int, files: map<string, File>)

  /** What goes wrong around one call. */
  datatype Faults = Faults(
    reading: bool, listingHit: bool, extracting: nat -> bool, settingMode: nat -> bool,
    listingSave: bool, opening: nat -> bool, storing: bool)

  ghost predicate Faultless(f: Faults) {
    && !f.reading && !f.listingHit && !f.listingSave && !f.storing
    && forall i: nat :: !f.extracting(i) && !f.settingMode(i) && !f.opening(i)
  }

  predicate Distinct(names: seq<string>) {
    forall i, j | 0 <= i < j < |names| :: names[i] != names[j]
  }

  /** A temporary file is made with permissions 0600. */
  const TEMPORARY_MODE: nat := 384

  predicate EndsWith(s: string, suffix: string) {
    |s| >= |suffix| && s[|s| - |suffix|..] == suffix
  }

  /** `replacen(from, to, 1)`. */
  function ReplaceFirst(s: string, from: string, to: string): string {
    if from <= s then to + s[|from|..]
    else if s == "" then ""
    else [s[0]] + ReplaceFirst(s[1..], from, to)
  }

  function Rmeta(lib: string): string {
    ReplaceFirst(lib, ".rlib", ".rmeta")
  }

  predicate OnlyMetadata(emit: set<string>) {
    emit != {} && emit <= {"metadata", "dep-info"}
  }

  predicate IsLibrary(name: string) {
    EndsWith(name, ".rlib") || EndsWith(name, ".rmeta")
  }

  predicate IsRlibName(name: string) {
    EndsWith(name, ".rlib")
  }

  function Drop(name: string, names: seq<string>): seq<string> {
    if names == [] then []
    else if names[0] == name then Drop(name, names[1..])
    else [names[0]] + Drop(name, names[1..])
  }

  function Retain(keep: string -> bool, names: seq<string>): seq<string> {
    if names == [] then []
    else if keep(names[0]) then [names[0]] + Retain(keep, names[1..])
    else Retain(keep, names[1..])
  }

  /** A library's metadata file is added, and without `link` takes its place. */
  function WithRmeta(names: seq<string>, lib: string, link: bool): seq<string> {
    var added := if Rmeta(lib) in names then names else names + [Rmeta(lib)];
    if link then added else Drop(lib, added)
  }

  function WithRmetas(names: seq<string>, libs: seq<string>, link: bool): seq<string>
    decreases |libs|
  {
    if libs == [] then names else WithRmetas(WithRmeta(names, libs[0], link), libs[1..], link)
  }

  function Refined(emit: set<string>, listed: seq<string>): seq<string> {
    var names := if OnlyMetadata(emit) then Retain(IsLibrary, listed) else listed;
    if "metadata" in emit then WithRmetas(names, Retain(IsRlibName, names), "link" in emit) else names
  }

  /** `refine_outputs`. */
  method RefineOutputs(emit: set<string>, listed: seq<string>) returns (outputs: seq<string>)
    ensures outputs == Refined(emit, listed)
  {
    outputs := listed;
    if OnlyMetadata(emit) {
      outputs := Retain(IsLibrary, outputs);
    }
    if "metadata" in emit {
      var rlibs := Retain(IsRlibName, outputs);
      ghost var names := outputs;
      for i := 0 to |rlibs|
        invariant WithRmetas(outputs, rlibs[i..], "link" in emit) == WithRmetas(names, rlibs, "link" in emit)
      {
        assert rlibs[i..][1..] == rlibs[i + 1..];
        var rmeta := Rmeta(rlibs[i]);
        if rmeta !in outputs {
          outputs := outputs + [rmeta];
        }
        if "link" !in emit {
          outputs := Drop(rlibs[i], outputs);
        }
      }
    }
  }

  lemma {:induction false} RetainIn(keep: string -> bool, names: seq<string>)
    ensures forall n :: n in Retain(keep, names) <==> n in names && keep(n)
  {
    if names != [] {
      RetainIn(keep, names[1..]);
      assert names == [names[0]] + names[1..];
    }
  }

  lemma {:induction false} DropIn(name: string, names: seq<string>)
    ensures forall n :: n in Drop(name, names) <==> n in names && n != name
  {
    if names != [] {
      DropIn(name, names[1..]);
      assert names == [names[0]] + names[1..];
    }
  }

  lemma WithRmetaIn(names: seq<string>, lib: string, link: bool, n: string)
    ensures n in WithRmeta(names, lib, link) <==> (n in names || n == Rmeta(lib)) && (link || n != lib)
  {
    DropIn(lib, if Rmeta(lib) in names then names else names + [Rmeta(lib)]);
  }

  /** `n` is the metadata file of one of `libs`, and neither that library nor one
      after it. */
  ghost predicate StaysAdded(libs: seq<string>, n: string, link: bool) {
    exists i | 0 <= i < |libs| :: n == Rmeta(libs[i]) && (link || n !in libs[i..])
  }

  lemma StaysAddedFirst(libs: seq<string>, n: string, link: bool)
    requires libs != []
    ensures StaysAdded(libs, n, link) <==> (n == Rmeta(libs[0]) && (link || n !in libs)) || StaysAdded(libs[1..], n, link)
  {
    assert libs[0..] == libs;
    forall i | 0 <= i < |libs| - 1 ensures libs[1..][i..] == libs[i + 1..] && libs[1..][i] == libs[i + 1] {}
    if i :| 0 <= i < |libs[1..]| && n == Rmeta(libs[1..][i]) && (link || n !in libs[1..][i..]) {
      assert n == Rmeta(libs[i + 1]) && libs[1..][i..] == libs[i + 1..];
    }
    if i :| 0 < i < |libs| && n == Rmeta(libs[i]) && (link || n !in libs[i..]) {
      assert libs[1..][i - 1] == libs[i] && libs[1..][i - 1..] == libs[i..];
    }
  }

  lemma {:induction false} WithRmetasIn(names: seq<string>, libs: seq<string>, link: bool, n: string)
    ensures n in WithRmetas(names, libs, link) <==> (n in names && (link || n !in libs)) || StaysAdded(libs, n, link)
    decreases |libs|
  {
    if libs != [] {
      WithRmetaIn(names, libs[0], link, n);
      WithRmetasIn(WithRmeta(names, libs[0], link), libs[1..], link, n);
      StaysAddedFirst(libs, n, link);
      assert libs == [libs[0]] + libs[1..];
    }
  }

  /** Something stands before `end` and nothing behind it. */
  ghost predicate Ends(n: string, end: string) {
    exists k | 0 <= k <= |n| :: n == n[..k] + end
  }

  lemma EndsIsEndsWith(n: string, end: string)
    ensures Ends(n, end) <==> EndsWith(n, end)
  {
    if EndsWith(n, end) {
      var k := |n| - |end|;
      assert n == n[..k] + end;
    }
  }

  /** The libraries among the files a build writes. */
  function RlibsOf(emit: set<string>, listed: seq<string>): seq<string> {
    Retain(IsRlibName, if OnlyMetadata(emit) then Retain(IsLibrary, listed) else listed)
  }

  /** Exactly which files are cached, for any listing: those listed, without what
      a metadata-only build leaves out; and where metadata is emitted, each
      library's metadata file, in its place unless the library is linked too. A
      metadata file that is itself named like a library still to come, or like
      its own, goes with it. */
  lemma RefinedExactly(emit: set<string>, listed: seq<string>, n: string)
    ensures n in Refined(emit, listed) <==>
              || (n in listed && (emit != {} && emit <= {"metadata", "dep-info"} ==> Ends(n, ".rlib") || Ends(n, ".rmeta"))
                  && ("metadata" in emit && "link" !in emit ==> !Ends(n, ".rlib")))
              || ("metadata" in emit && StaysAdded(RlibsOf(emit, listed), n, "link" in emit))
  {
    var names := if OnlyMetadata(emit) then Retain(IsLibrary, listed) else listed;
    EndsIsEndsWith(n, ".rlib");
    EndsIsEndsWith(n, ".rmeta");
    RetainIn(IsLibrary, listed);
    if "metadata" in emit {
      RetainIn(IsRlibName, names);
      WithRmetasIn(names, RlibsOf(emit, listed), "link" in emit, n);
    }
  }

  /** Where no metadata file is named like a library, each library has its own. */
  lemma RefinedOrdinarily(emit: set<string>, listed: seq<string>, n: string)
    requires forall lib <- listed :: IsRlibName(lib) ==> !IsRlibName(Rmeta(lib))
    ensures n in Refined(emit, listed) <==>
              || (n in listed && (emit != {} && emit <= {"metadata", "dep-info"} ==> Ends(n, ".rlib") || Ends(n, ".rmeta"))
                  && ("metadata" in emit && "link" !in emit ==> !Ends(n, ".rlib")))
              || ("metadata" in emit && exists lib :: lib in listed && IsRlibName(lib) && n == Rmeta(lib))
  {
    RefinedExactly(emit, listed, n);
    var libs := RlibsOf(emit, listed);
    RetainIn(IsLibrary, listed);
    RetainIn(IsRlibName, if OnlyMetadata(emit) then Retain(IsLibrary, listed) else listed);
    assert forall lib :: lib in libs <==> lib in listed && IsRlibName(lib);
    if lib :| lib in listed && IsRlibName(lib) && n == Rmeta(lib) {
      var i :| 0 <= i < |libs| && libs[i] == lib;
      assert n == Rmeta(libs[i]) && n !in libs[i..];
    }
  }

  lemma {:induction false} ReplacesFirst(a: string, from: string, to: string, b: string)
    requires from != "" && from[0] !in a
    ensures ReplaceFirst(a + from + b, from, to) == a + to + b
  {
    if a == "" {
      assert a + from + b == from + b && (from + b)[|from|..] == b;
    } else {
      assert (a + from + b)[0] == a[0] != from[0];
      assert (a + from + b)[1..] == a[1..] + from + b;
      ReplacesFirst(a[1..], from, to, b);
      assert [a[0]] + (a[1..] + to + b) == a + to + b;
    }
  }

  /** What is cached of a library crate, for which rustc lists one file: that, its
      metadata, or both, as they are emitted. */
  lemma LibraryOutputs(emit: set<string>, stem: string)
    requires '.' !in stem
    ensures Refined(emit, [stem + ".rlib"])
            == if "metadata" !in emit then [stem + ".rlib"]
               else if "link" in emit then [stem + ".rlib", stem + ".rmeta"]
               else [stem + ".rmeta"]
  {
    var lib, meta: string := stem + ".rlib", stem + ".rmeta";
    RmetaOf(stem);
    assert |lib| != |meta|;
    OneOfOne(IsLibrary, lib);
    OneOfOne(IsRlibName, lib);
    if "metadata" in emit { OneRmeta(lib, meta, "link" in emit); }
  }

  lemma RmetaOf(stem: string)
    requires '.' !in stem
    ensures Rmeta(stem + ".rlib") == stem + ".rmeta" && IsRlibName(stem + ".rlib") && IsLibrary(stem + ".rlib")
  {
    var lib := stem + ".rlib";
    ReplacesFirst(stem, ".rlib", ".rmeta", "");
    assert stem + ".rlib" + "" == lib && stem + ".rmeta" + "" == stem + ".rmeta";
    assert lib[|lib| - 5..] == ".rlib";
  }

  lemma OneOfOne(keep: string -> bool, name: string)
    requires keep(name)
    ensures Retain(keep, [name]) == [name]
  {
    var none: seq<string> := [];
    assert [name][1..] == none && Retain(keep, none) == none;
  }

  lemma OneRmeta(lib: string, meta: string, link: bool)
    requires Rmeta(lib) == meta && lib != meta
    ensures WithRmetas([lib], [lib], link) == if link then [lib, meta] else [meta]
  {
    var none: seq<string> := [];
    assert [lib][1..] == none && [lib] + [meta] == [lib, meta] && meta !in [lib];
    assert [lib, meta][1..] == [meta] && [meta][1..] == none && Drop(lib, none) == none;
    assert Drop(lib, [meta]) == [meta] && Drop(lib, [lib, meta]) == [meta];
    assert WithRmetas([lib], [lib], link) == WithRmetas(WithRmeta([lib], lib, link), none, link);
  }

  /** Of a library with the ending twice the first ending is replaced, so what is
      looked for does not end like a metadata file. */
  lemma DoubleEndingMisnamed()
    ensures Rmeta("liba.rlib.rlib") == "liba.rmeta.rlib" && "liba.rmeta.rlib" != "liba.rlib.rmeta"
  {
    assert "liba" + ".rlib" + ".rlib" == "liba.rlib.rlib" && "liba" + ".rmeta" + ".rlib" == "liba.rmeta.rlib";
    ReplacesFirst("liba", ".rlib", ".rmeta", ".rlib");
    assert "liba.rmeta.rlib"[6] == 'm' && "liba.rlib.rmeta"[6] == 'l';
  }

  function Listed(o: Option<string>): seq<string> {
    match o case None => [] case Some(s) => [s]
  }

  /** Of a command line that may be cached: what the wrapper goes by, and what
      is hashed for it. */
  datatype Plan = Plan(emit: set<string>, outputDir: string, depInfo: Option<string>, profile: Option<string>, input: string)

  /** What the wrapper can see but not change: rustc, the directory it writes to,
      the names it prints for a command line, how a command line is read, and
      the hash. */
  datatype World = World(
    rustc: Call -> Compiled, dir: Call -> string, listing: Call -> Option<seq<string>>, plan: Call -> Option<Plan>,
    hash: string -> string)

  /** `plan_cache`. */
  function PlanOf(c: Call, read: string -> Option<string>): Option<Plan> {
    match ParseOf(ARGS, c.args, c.env)
    case Parsed(p) =>
      (match HashInput(p, read)
       case None => None
       case Some(input) => Some(Plan(p.emit, p.outputDir, p.depInfo, p.profile, input)))
    case _ => None
  }

  /** The arguments of a call. */
  function ItemsIn(c: Call): seq<Argument> {
    Discount(ItemsOf(ARGS, c.args, c.env.probe).items)
  }

  /** What a plan says, in terms of the arguments: the last output directory, the
      one `--emit`, the files that go with it, and what is hashed. */
  ghost predicate PlanSays(p: Plan, items: seq<Argument>, env: Env, read: string -> Option<string>) {
    && Last(Said(OutputDir, items)) == Some(p.outputDir)
    && |Said(EmitList, items)| == 1 && p.emit == SetOf(Strings.Split(Said(EmitList, items)[0], ','))
    && (p.depInfo.Some? <==> "dep-info" in p.emit)
    && (p.depInfo.Some? ==>
          && Said(NameOfCrate, items) != []
          && p.depInfo.value == Last(Said(NameOfCrate, items)).value
                                + (match Last(Said(ExtraFilename, items)) case Some(extra) => extra case None => "") + ".d")
    && p.profile == (if "link" in p.emit then Last(Said(Profile, items)) else None)
    && InputFrom(items, env, read) == Some(p.input)
  }

  lemma PlanIsSaid(c: Call, read: string -> Option<string>)
    requires PlanOf(c, read).Some?
    ensures PlanSays(PlanOf(c, read).value, ItemsIn(c), c.env, read)
  {
    PlanIsTaken(c, read);
    ParsedSays(ARGS, c.args, c.env);
    HashInputIs(c.args, c.env, read);
    SaidOfPlan(PlanOf(c, read).value, ParseOf(ARGS, c.args, c.env).parsed, ItemsIn(c), c.env, read);
  }

  lemma PlanIsTaken(c: Call, read: string -> Option<string>)
    requires PlanOf(c, read).Some?
    ensures ParseOf(ARGS, c.args, c.env).Parsed? && PlanTakes(PlanOf(c, read).value, ParseOf(ARGS, c.args, c.env).parsed, read)
  {
  }

  predicate PlanTakes(p: Plan, q: ParsedArguments, read: string -> Option<string>) {
    && p.emit == q.emit && p.outputDir == q.outputDir && p.depInfo == q.depInfo && p.profile == q.profile
    && HashInput(q, read) == Some(p.input)
  }

  lemma SaidOfPlan(p: Plan, q: ParsedArguments, items: seq<Argument>, env: Env, read: string -> Option<string>)
    requires PlanTakes(p, q, read) && SaysOnce(q, items) && HashInput(q, read) == InputFrom(items, env, read)
    ensures PlanSays(p, items, env, read)
  {
  }

  /** A call is planned exactly if it is parsed and what it names can be read. */
  lemma PlannedExactlyWhen(c: Call, read: string -> Option<string>)
    ensures PlanOf(c, read).Some? <==>
              && ItemsOf(ARGS, c.args, c.env.probe).error == None && Acceptable(ItemsIn(c)) && Complete(ItemsIn(c))
              && match Last(Said(JsonTarget, ItemsIn(c))) case Some(path) => read(path).Some? case None => true
  {
    ParsedExactlyWhen(ARGS, c.args, c.env);
    if ParseOf(ARGS, c.args, c.env).Parsed? { ParsedSays(ARGS, c.args, c.env); }
  }

  method PlanCache(c: Call, read: string -> Option<string>) returns (plan: Option<Plan>)
    ensures plan == PlanOf(c, read)
  {
    var outcome := ParseArguments(ARGS, c.args, c.env);
    if !outcome.Parsed? {
      return None;
    }
    var p := outcome.parsed;
    var hasher := new Hasher();
    var ok := HashRustcArgs(p, read, hasher);
    if !ok {
      return None;
    }
    assert "" + HashInput(p, read).value == HashInput(p, read).value;
    plan := Some(Plan(p.emit, p.outputDir, p.depInfo, p.profile, hasher.absorbed));
  }

  /** `plan_outputs`: the names of the files to cache. */
  function NamesOf(w: World, c: Call, p: Plan): Option<seq<string>> {
    match w.listing(c)
    case None => None
    case Some(listed) => Some(Refined(p.emit, listed) + Listed(p.depInfo) + Listed(p.profile))
  }

  /** Where rustc writes: into the last `--out-dir` it is given. */
  function SaidDir(c: Call): string {
    PathJoin(c.env.cwd, match Last(Said(OutputDir, ItemsIn(c))) case Some(dir) => dir case None => "")
  }

  /** The disk after running rustc. */
  function Direct(w: World, disk: Disk, c: Call): Disk {
    var dir, files := w.dir(c), w.rustc(c).files;
    disk + map f | f in set n <- files :: (dir, n) :: files[f.1]
  }

  /** Not asked to use a profile, whose contents are not hashed. */
  predicate Plain(w: World, c: Call) {
    w.plan(c).Some? ==> w.plan(c).value.profile.None?
  }

  /** The files to cache, for a command line that can be planned. */
  function Planned(w: World, c: Call): Option<seq<string>> {
    match w.plan(c) case None => None case Some(p) => NamesOf(w, c, p)
  }

  /** Exactly which files are cached for a call: of those rustc lists the ones a
      build of this kind writes, with their metadata files; the dep-info file by
      the crate's name; and a profile that the call is to use. */
  lemma PlannedNames(w: World, c: Call, read: string -> Option<string>, listed: seq<string>, n: string)
    requires w.plan(c) == PlanOf(c, read) && w.plan(c).Some? && w.listing(c) == Some(listed)
    ensures var emit, items := w.plan(c).value.emit, ItemsIn(c);
            n in Planned(w, c).value <==>
              || n in Refined(emit, listed)
              || ("dep-info" in emit && Said(NameOfCrate, items) != []
                  && n == Last(Said(NameOfCrate, items)).value
                          + (match Last(Said(ExtraFilename, items)) case Some(extra) => extra case None => "") + ".d")
              || ("link" in emit && Last(Said(Profile, items)) == Some(n))
  {
    PlanIsSaid(c, read);
    var p := w.plan(c).value;
    assert NamesOf(w, c, p) == Some(Refined(p.emit, listed) + Listed(p.depInfo) + Listed(p.profile));
  }

  /** For the calls `made` that use no profile: whether rustc succeeds, which
      files are listed and what is in them is decided by what is hashed; a
      success writes every file listed; and the hash tells their inputs apart. */
  ghost predicate Determined(w: World, made: iset<Call>) {
    && (forall a, b | a in made && b in made && SameKey(w, a, b) :: w.plan(a).value.input == w.plan(b).value.input)
    && (forall a, b | a in made && b in made && SameInput(w, a, b) && w.rustc(a).code == 0 :: SameOutputs(w, a, b))
    && (forall c | c in made && Plain(w, c) && w.rustc(c).code == 0 :: WritesPlanned(w, c))
  }

  predicate WritesPlanned(w: World, c: Call) {
    Planned(w, c).Some? ==> forall n <- Planned(w, c).value :: n in w.rustc(c).files
  }

  predicate SameKey(w: World, a: Call, b: Call) {
    w.plan(a).Some? && w.plan(b).Some? && w.hash(w.plan(a).value.input) == w.hash(w.plan(b).value.input)
  }

  /** A compiler that succeeds on every command line, with and without a profile,
      which it reads and does not write. */
  function OneLibrary(): World {
    World(
      c => Compiled(0, map["liba.rlib" := File("code", 0), "a.d" := File("deps", 0)]),
      c => SaidDir(c),
      c => Some(["liba.rlib"]),
      (c: Call) => Some(Plan({"link"}, "out", Some("a.d"), if c.args == [] then None else Some(c.args[0]), "input")),
      input => input)
  }

  /** The hypothesis speaks of calls without a profile only: a world in which
      others succeed too, leaving a planned name unwritten, meets it. */
  lemma ProfilesMayBeUsed(made: iset<Call>, c: Call)
    requires c.args != [] && c.args[0] != "liba.rlib" && c.args[0] != "a.d"
    ensures var w := OneLibrary();
            && Determined(w, made) && Plain(w, c.(args := [])) && !Plain(w, c) && w.rustc(c).code == 0
            && Planned(w, c).Some? && exists n <- Planned(w, c).value :: n !in w.rustc(c).files
  {
    var w := OneLibrary();
    forall b | Plain(w, b) ensures Planned(w, b) == Some(["liba.rlib", "a.d"]) && WritesPlanned(w, b) {
      OneLibraryPlans(b);
      assert ["liba.rlib", "a.d"] + [] == ["liba.rlib", "a.d"];
    }
    OneLibraryPlans(c);
    assert c.args[0] in Planned(w, c).value;
  }

  lemma OneLibraryPlans(b: Call)
    ensures Planned(OneLibrary(), b) == Some(["liba.rlib", "a.d"] + if b.args == [] then [] else [b.args[0]])
  {
    assert !OnlyMetadata({"link"});
    assert ["liba.rlib"] + ["a.d"] == ["liba.rlib", "a.d"];
    assert Refined({"link"}, ["liba.rlib"]) == ["liba.rlib"];
  }

  predicate SameInput(w: World, a: Call, b: Call) {
    Plain(w, a) && Plain(w, b) && w.plan(a).Some? && w.plan(b).Some? && w.plan(a).value.input == w.plan(b).value.input
  }

  predicate SameOutputs(w: World, a: Call, b: Call) {
    && w.rustc(b).code == 0
    && (Planned(w, a).Some? && Planned(w, b).Some? ==>
          && Planned(w, a) == Planned(w, b)
          && forall n <- Planned(w, a).value :: n in w.rustc(a).files && n in w.rustc(b).files && w.rustc(a).files[n] == w.rustc(b).files[n])
  }

  /** An entry holds exactly the planned outputs of a successful run. */
  predicate HoldsOutputs(w: World, c: Call, entry: Archive) {
    && w.rustc(c).code == 0 && Planned(w, c).Some?
    && entry.Keys == (set n <- Planned(w, c).value)
    && forall n <- entry :: n in w.rustc(c).files && entry[n] == w.rustc(c).files[n]
  }

  /** A success whose outputs can be kept: none is named twice or missing. */
  predicate Keepable(w: World, c: Call) {
    w.rustc(c).code == 0 && Planned(w, c).Some? && Distinct(Planned(w, c).value) && WritesPlanned(w, c)
  }

  ghost predicate TrueFor(w: World, made: iset<Call>, key: string, entry: Archive) {
    exists c :: c in made && Plain(w, c) && w.plan(c).Some? && w.hash(w.plan(c).value.input) == key && HoldsOutputs(w, c, entry)
  }

  ghost predicate StoreOk(w: World, made: iset<Call>, store: map<string, Archive>) {
    forall key <- store :: TrueFor(w, made, key, store[key])
  }

  /** Every entry is right for every call made with its key. */
  lemma EntriesServeAll(w: World, made: iset<Call>, store: map<string, Archive>, c: Call)
    requires Determined(w, made) && StoreOk(w, made, store) && c in made && Plain(w, c) && w.plan(c).Some?
    requires w.hash(w.plan(c).value.input) in store
    ensures w.rustc(c).code == 0
    ensures Planned(w, c).Some? ==> HoldsOutputs(w, c, store[w.hash(w.plan(c).value.input)])
  {
    var key := w.hash(w.plan(c).value.input);
    assert TrueFor(w, made, key, store[key]);
    var a :| a in made && Plain(w, a) && w.plan(a).Some? && w.hash(w.plan(a).value.input) == key && HoldsOutputs(w, a, store[key]);
    assert SameKey(w, a, c);
    assert SameInput(w, a, c);
    assert SameOutputs(w, a, c);
  }

  /** Command lines that differ only in ways the key does not see share their
      cache entries. */
  lemma AlikeCallsShare(w: World, read: string -> Option<string>, a: Call, b: Call)
    requires w.plan(a) == PlanOf(a, read) && w.plan(b) == PlanOf(b, read) && w.plan(a).Some? && Plain(w, a) && Plain(w, b)
    requires ItemsOf(ARGS, a.args, a.env.probe).error == None && ItemsOf(ARGS, b.args, b.env.probe).error == None
    requires Alike(Discount(ItemsOf(ARGS, a.args, a.env.probe).items), a.env, Discount(ItemsOf(ARGS, b.args, b.env.probe).items), b.env)
    ensures SameInput(w, a, b)
  {
    KeyInvariance.KeyInvariance(a.args, a.env, b.args, b.env, read);
  }

  /** Command lines whose difference is lost in the key share it too. If rustc
      takes one and refuses the other, they must not both be made. */
  lemma CollidingCallsClash(w: World, read: string -> Option<string>, n: string, v: string, m: string, y: seq<string>, c: Call, made: iset<Call>)
    requires c.args == ["--crate-name", n, "--edition", v] + y && m == n + "--edition" + v
    requires var d := c.(args := ["--crate-name", m] + y);
             && w.plan(c) == PlanOf(c, read) && w.plan(d) == PlanOf(d, read) && w.plan(c).Some?
             && Plain(w, c) && Plain(w, d) && w.rustc(c).code == 0 && w.rustc(d).code != 0
    ensures SameKey(w, c, c.(args := ["--crate-name", m] + y))
    ensures Determined(w, made) ==> c !in made || c.(args := ["--crate-name", m] + y) !in made
  {
    KeyCollisions.EditionCollides(n, v, m, y, c.env);
    var d := c.(args := ["--crate-name", m] + y);
    assert SameInput(w, c, d);
    assert !SameOutputs(w, c, d);
  }

  /** Calls with a key of their own never stand in each other's way. */
  lemma NewKeysMayJoin(w: World, made: iset<Call>, c: Call)
    requires Determined(w, made) && forall a <- made :: !SameKey(w, a, c)
    requires Plain(w, c) && w.rustc(c).code == 0 ==> WritesPlanned(w, c)
    ensures Determined(w, made + iset{c})
  {
    forall a, b | a in made + iset{c} && b in made + iset{c} && SameInput(w, a, b) && w.rustc(a).code == 0 ensures SameOutputs(w, a, b) {
      assert SameKey(w, a, b);
    }
  }

  predicate SameFile(a: Disk, b: Disk, f: (string, string)) {
    (f in a <==> f in b) && (f in a ==> a[f] == b[f])
  }

  /** Nothing changed but files of these names in this directory. */
  ghost predicate SameBut(before: Disk, now: Disk, dir: string, names: seq<string>) {
    forall f: (string, string) :: (f.0 == dir && f.1 in names) || SameFile(before, now, f)
  }

  /** File `f` is as it was or as running rustc would leave it. */
  predicate LeftOrDirect(w: World, before: Disk, now: Disk, c: Call, f: (string, string)) {
    SameFile(before, now, f) || SameFile(Direct(w, before, c), now, f)
  }

  /** The planned files are as running rustc leaves them, and every other file
      is so too or was not touched. */
  ghost predicate AsDirect(w: World, c: Call, before: Disk, now: Disk) {
    && (Planned(w, c).Some? ==> forall n <- Planned(w, c).value :: SameFile(Direct(w, before, c), now, (w.dir(c), n)))
    && forall f: (string, string) :: LeftOrDirect(w, before, now, c, f)
  }

  /** Running rustc sets right whatever was done to the files it writes. */
  lemma DirectAgain(w: World, before: Disk, now: Disk, c: Call, names: seq<string>)
    requires SameBut(before, now, w.dir(c), names) && forall n <- names :: n in w.rustc(c).files
    ensures Direct(w, now, c) == Direct(w, before, c)
  {
    forall f: (string, string) ensures SameFile(Direct(w, now, c), Direct(w, before, c), f) {
      assert SameFile(before, now, f) || (f.0 == w.dir(c) && f.1 in names);
    }
    DisksEqual(Direct(w, now, c), Direct(w, before, c));
  }

  lemma DisksEqual(a: Disk, b: Disk)
    requires forall f: (string, string) :: SameFile(a, b, f)
    ensures a == b
  {
    assert forall f :: f in a ==> SameFile(a, b, f);
    assert forall f :: f in b ==> SameFile(a, b, f);
    assert a.Keys == b.Keys;
  }

  /** What a hit restores is what rustc would have written. */
  lemma HitIsDirect(w: World, before: Disk, now: Disk, c: Call, entry: Archive)
    requires HoldsOutputs(w, c, entry)
    requires forall n <- Planned(w, c).value :: n in entry && (w.dir(c), n) in now && now[(w.dir(c), n)] == entry[n]
    ensures forall n <- Planned(w, c).value :: SameFile(Direct(w, before, c), now, (w.dir(c), n))
  {
  }

  /** The planned files as they are after a successful run. */
  predicate Taken(w: World, c: Call, disk: Disk, entry: Archive)
    requires Planned(w, c).Some?
  {
    && entry.Keys == (set n <- Planned(w, c).value)
    && forall n <- entry :: (w.dir(c), n) in disk && entry[n] == disk[(w.dir(c), n)]
  }

  lemma TakenHolds(w: World, before: Disk, c: Call, entry: Archive)
    requires Planned(w, c).Some? && w.rustc(c).code == 0 && WritesPlanned(w, c) && Taken(w, c, Direct(w, before, c), entry)
    ensures HoldsOutputs(w, c, entry)
  {
    assert forall n <- entry :: n in Planned(w, c).value;
  }

  /** What is saved after a successful run is what rustc wrote. */
  lemma SavedIsTrue(w: World, made: iset<Call>, before: Disk, c: Call, entry: Archive)
    requires Determined(w, made) && c in made && Plain(w, c) && Planned(w, c).Some? && w.rustc(c).code == 0
    requires Taken(w, c, Direct(w, before, c), entry)
    ensures TrueFor(w, made, w.hash(w.plan(c).value.input), entry)
  {
    assert WritesPlanned(w, c);
    TakenHolds(w, before, c, entry);
  }

  class Wrapper {
    const w: World
    const read: string -> Option<string>
    var disk: Disk
    var store: map<string, Archive>

    constructor (w: World, read: string -> Option<string>, disk: Disk)
      ensures this.w == w && this.read == read && this.disk == disk && store == map[]
    {
      this.w, this.read, this.disk, store := w, read, disk, map[];
    }

    /** Command lines are read as `plan_cache` reads them, and rustc writes where
        they say. */
    ghost predicate ReadsAsPlanned() {
      && (forall c {:trigger PlanOf(c, read)} :: w.plan(c) == PlanOf(c, read))
      && (forall c {:trigger SaidDir(c)} :: w.dir(c) == SaidDir(c))
    }

    /** What the wrapper takes for the output directory is the one. */
    lemma DirIsPlanned(c: Call, p: Plan)
      requires ReadsAsPlanned() && w.plan(c) == Some(p)
      ensures w.dir(c) == PathJoin(c.env.cwd, p.outputDir)
    {
      PlanIsSaid(c, read);
      assert w.dir(c) == SaidDir(c);
    }

    method PlanFor(c: Call) returns (plan: Option<Plan>)
      requires ReadsAsPlanned()
      ensures plan == w.plan(c)
    {
      plan := PlanCache(c, read);
    }

    predicate AllOnDisk(dir: string, names: seq<string>)
      reads this`disk
    {
      forall n <- names :: (dir, n) in disk
    }

    /** `CacheWrite::from_objects`: reads the files into an entry. */
    method FromObjects(dir: string, names: seq<string>, opening: nat -> bool) returns (entry: Option<Archive>)
      ensures entry.Some? ==>
                && entry.value.Keys == (set n <- names)
                && forall n <- entry.value :: (dir, n) in disk && entry.value[n] == disk[(dir, n)]
      ensures (forall i: nat :: !opening(i)) ==> (entry.Some? <==> Distinct(names) && AllOnDisk(dir, names))
    {
      var archive: Archive := map[];
      for i := 0 to |names|
        invariant archive.Keys == set n <- names[..i]
        invariant Distinct(names[..i])
        invariant forall n <- archive :: (dir, n) in disk && archive[n] == disk[(dir, n)]
      {
        if opening(i) || (dir, names[i]) !in disk || names[i] in archive {
          return None;
        }
        assert names[..i + 1] == names[..i] + [names[i]];
        archive := archive[names[i] := disk[(dir, names[i])]];
      }
      assert names[..|names|] == names;
      entry := Some(archive);
    }

    /** `extract_objects`: each member to a temporary file, which is renamed and
        then given its permissions. */
    method ExtractObjects(dir: string, names: seq<string>, entry: Archive, faults: Faults) returns (ok: bool)
      modifies this`disk
      ensures SameBut(old(disk), disk, dir, names)
      ensures ok ==> forall n <- names :: n in entry && (dir, n) in disk && disk[(dir, n)] == entry[n]
      ensures Faultless(faults) ==> (ok <==> forall n <- names :: n in entry)
    {
      for i := 0 to |names|
        invariant SameBut(old(disk), disk, dir, names)
        invariant forall n <- names[..i] :: n in entry && (dir, n) in disk && disk[(dir, n)] == entry[n]
      {
        var n := names[i];
        if faults.extracting(i) || n !in entry {
          return false;
        }
        disk := disk[(dir, n) := File(entry[n].bytes, TEMPORARY_MODE)];
        if faults.settingMode(i) {
          return false;
        }
        disk := disk[(dir, n) := File(entry[n].bytes, entry[n].mode)];
        assert names[..i + 1] == names[..i] + [n];
      }
      ok := true;
      assert names[..|names|] == names;
    }

    /** The store has an entry for this call, with every file that is listed. */
    predicate Stored(c: Call)
      reads this`store
    {
      && w.plan(c).Some? && w.hash(w.plan(c).value.input) in store && Planned(w, c).Some?
      && forall n <- Planned(w, c).value :: n in store[w.hash(w.plan(c).value.input)]
    }

    /** `try_serve_from_cache`. */
    method TryServe(c: Call, p: Plan, faults: Faults) returns (served: bool)
      modifies this`disk
      requires ReadsAsPlanned() && w.plan(c) == Some(p)
      ensures served ==> w.hash(p.input) in store && Planned(w, c).Some?
                         && forall n <- Planned(w, c).value :: n in store[w.hash(p.input)] && (w.dir(c), n) in disk
                                                               && disk[(w.dir(c), n)] == store[w.hash(p.input)][n]
      ensures Faultless(faults) ==> (served <==> Stored(c))
      ensures disk != old(disk) ==> w.hash(p.input) in store && Planned(w, c).Some?
      ensures SameBut(old(disk), disk, w.dir(c), if Planned(w, c).Some? then Planned(w, c).value else [])
    {
      var key := w.hash(p.input);
      if faults.reading || key !in store {
        return false;
      }
      var names := NamesOf(w, c, p);
      if faults.listingHit || names.None? {
        return false;
      }
      DirIsPlanned(c, p);
      served := ExtractObjects(PathJoin(c.env.cwd, p.outputDir), names.value, store[key], faults);
    }

    /** `save_outputs`; `put` never overwrites. */
    method SaveOutputs(c: Call, p: Plan, faults: Faults)
      requires ReadsAsPlanned() && w.plan(c) == Some(p)
      modifies this`store
      ensures store == old(store)
              || (&& w.hash(p.input) !in old(store) && Planned(w, c).Some?
                  && exists entry: Archive :: store == old(store)[w.hash(p.input) := entry] && Taken(w, c, disk, entry))
      ensures Faultless(faults) && Planned(w, c).Some? && Distinct(Planned(w, c).value) && AllOnDisk(w.dir(c), Planned(w, c).value) ==>
                w.hash(p.input) in store
    {
      var names := NamesOf(w, c, p);
      if faults.listingSave || names.None? {
        return;
      }
      DirIsPlanned(c, p);
      var entry := FromObjects(PathJoin(c.env.cwd, p.outputDir), names.value, faults.opening);
      if entry.Some? && !faults.storing && w.hash(p.input) !in store {
        store := store[w.hash(p.input) := entry.value];
        assert store == old(store)[w.hash(p.input) := entry.value] && Taken(w, c, disk, entry.value);
      }
    }

    /** What transparency rests on: the calls made are determined by what is
        hashed, this is one of them, and the store is true. */
    ghost predicate Trusted(made: iset<Call>, c: Call)
      reads this`store
    {
      Determined(w, made) && StoreOk(w, made, store) && c in made && Plain(w, c)
    }

    /** What `n` in the output directory of `c` is on the disk, if it is there. */
    function Output(c: Call, n: string): Option<File>
      reads this`disk
    {
      if (w.dir(c), n) in disk then Some(disk[(w.dir(c), n)]) else None
    }

    /** `cache_path`. Where the calls made are determined, whatever fails on the
        way, the exit code and the planned files are those of running rustc,
        nothing else changes that rustc would not change, and the store stays
        true. Determined or not, a call whose entry is there is served from it
        when nothing fails, and any other runs rustc and is kept. */
    method CachePath(c: Call, faults: Faults, ghost made: iset<Call>) returns (code: int)
      requires ReadsAsPlanned()
      modifies this
      ensures old(Trusted(made, c)) ==> StoreOk(w, made, store) && code == w.rustc(c).code && AsDirect(w, c, old(disk), disk)
      ensures Faultless(faults) && old(Stored(c)) ==>
                && code == 0 && store == old(store)
                && forall n <- Planned(w, c).value :: Output(c, n) == Some(store[w.hash(w.plan(c).value.input)][n])
      ensures Faultless(faults) && !old(Stored(c)) ==>
                && code == w.rustc(c).code
                && forall n <- w.rustc(c).files :: Output(c, n) == Some(w.rustc(c).files[n])
      ensures Faultless(faults) && Keepable(w, c) && w.hash(w.plan(c).value.input) !in old(store) ==>
                Stored(c) && HoldsOutputs(w, c, store[w.hash(w.plan(c).value.input)])
    {
      var plan := PlanFor(c);
      var served := false;
      if plan.Some? {
        served := TryServe(c, plan.value, faults);
        if Trusted(made, c) && w.hash(plan.value.input) in store { EntriesServeAll(w, made, store, c); }
      }
      if served {
        if Trusted(made, c) {
          HitIsDirect(w, old(disk), disk, c, store[w.hash(plan.value.input)]);
          assert forall f: (string, string) :: LeftOrDirect(w, old(disk), disk, c, f);
        }
        return 0;
      }
      if Trusted(made, c) && disk != old(disk) { DirectAgain(w, old(disk), disk, c, Planned(w, c).value); }
      code := CompileAndKeep(c, plan, faults, made);
    }

    /** Running rustc and saving after a success keeps the store true, and adds
        what rustc wrote. */
    method CompileAndKeep(c: Call, plan: Option<Plan>, faults: Faults, ghost made: iset<Call>) returns (code: int)
      requires ReadsAsPlanned() && w.plan(c) == plan
      modifies this
      ensures code == w.rustc(c).code && disk == Direct(w, old(disk), c)
      ensures old(Trusted(made, c)) ==> StoreOk(w, made, store)
      ensures Faultless(faults) && Keepable(w, c) && w.hash(w.plan(c).value.input) !in old(store) ==>
                Stored(c) && HoldsOutputs(w, c, store[w.hash(w.plan(c).value.input)])
    {
      code := w.rustc(c).code;
      disk := Direct(w, disk, c);
      if code == 0 && plan.Some? {
        SaveOutputs(c, plan.value, faults);
        if store != old(store) {
          ghost var key := w.hash(plan.value.input);
          ghost var entry: Archive :| store == old(store)[key := entry] && Taken(w, c, disk, entry);
          if old(Trusted(made, c)) { SavedIsTrue(w, made, old(disk), c, entry); }
          if WritesPlanned(w, c) { TakenHolds(w, old(disk), c, entry); }
        }
      }
    }

    /** Over any sequence of calls, whatever fails: `disks` is what the disk was
        before each of them and at the end. */
    method RunAll(calls: seq<(Call, Faults)>, ghost made: iset<Call>) returns (codes: seq<int>, ghost disks: seq<Disk>)
      requires ReadsAsPlanned() && Determined(w, made) && StoreOk(w, made, store)
      requires forall k <- calls :: k.0 in made && Plain(w, k.0)
      modifies this
      ensures StoreOk(w, made, store)
      ensures |codes| == |calls| && |disks| == |calls| + 1 && disks[0] == old(disk) && disks[|calls|] == disk
      ensures forall i | 0 <= i < |calls| :: codes[i] == w.rustc(calls[i].0).code && AsDirect(w, calls[i].0, disks[i], disks[i + 1])
    {
      codes, disks := [], [disk];
      for i := 0 to |calls|
        invariant StoreOk(w, made, store)
        invariant |codes| == i && |disks| == i + 1 && disks[0] == old(disk) && disks[i] == disk
        invariant forall j | 0 <= j < i :: codes[j] == w.rustc(calls[j].0).code && AsDirect(w, calls[j].0, disks[j], disks[j + 1])
      {
        assert calls[i] in calls;
        var code := CachePath(calls[i].0, calls[i].1, made);
        codes, disks := codes + [code], disks + [disk];
      }
    }

    /** A call kept by one without a fault serves every later one with its key
        that plans no other files; and that is as running rustc would be exactly
        if rustc would do for the second what it did for the first. */
    method SecondIsServed(a: Call, b: Call, f: Faults) returns (codes: (int, int), ghost between: Disk)
      requires ReadsAsPlanned() && Faultless(f) && SameKey(w, a, b) && Keepable(w, a)
      requires w.hash(w.plan(a).value.input) !in store && Planned(w, b).Some?
      requires (forall n <- Planned(w, b).value :: n in Planned(w, a).value) && (w.rustc(b).code == 0 ==> WritesPlanned(w, b))
      modifies this
      ensures codes == (0, 0)
      ensures forall n <- Planned(w, b).value :: Output(b, n) == Some(w.rustc(a).files[n])
      ensures 0 == w.rustc(b).code && (forall n <- Planned(w, b).value :: SameFile(Direct(w, between, b), disk, (w.dir(b), n)))
              <==> w.rustc(b).code == 0 && forall n <- Planned(w, b).value :: w.rustc(a).files[n] == w.rustc(b).files[n]
    {
      var first := CachePath(a, f, iset{});
      between := disk;
      var second := CachePath(b, f, iset{});
      codes := (first, second);
    }
  }
}
