/** Edits of a command line that change neither whether it is parsed nor what is
    hashed for it. */
module KeyEdits {
  import opened Wrappers
  import opened Strings
  import opened Paths
  import opened ArgTable
  import opened RustcTable
  import opened RustcArgs
  import opened Parse
  import opened ParseMeaning
  import opened Reparse
  import opened CommandLines
  import opened Digest
  import opened KeyInvariance

  lemma {:induction false} CoreMore(a: seq<Argument>, b: seq<Argument>)
    ensures Core(a + b) == Core(a) + Core(b)
  {
    if a == [] {
      assert a + b == b;
    } else {
      assert (a + b)[1..] == a[1..] + b;
      CoreMore(a[1..], b);
    }
  }

  lemma {:induction false} CfgsMore(a: seq<Argument>, b: seq<Argument>)
    ensures CfgsWritten(a + b) == CfgsWritten(a) + CfgsWritten(b)
  {
    if a == [] {
      assert a + b == b;
    } else {
      assert (a + b)[1..] == a[1..] + b;
      CfgsMore(a[1..], b);
    }
  }

  lemma {:induction false} FileNamesMore(a: seq<string>, b: seq<string>)
    ensures FileNames(a + b) == FileNames(a) + FileNames(b)
  {
    if a == [] {
      assert a + b == b;
    } else {
      assert (a + b)[0] == a[0] && (a + b)[1..] == a[1..] + b;
      FileNamesMore(a[1..], b);
      Assoc(match FileName(a[0]) case None => [] case Some(n) => [n], FileNames(a[1..]), FileNames(b));
    }
  }

  /** The key sees no difference between two runs of arguments, as long as the
      static libraries that are found have the same names. */
  ghost predicate UnseenButForLibs(a: seq<Argument>, b: seq<Argument>) {
    && Core(a) == Core(b)
    && multiset(CfgsWritten(a)) == multiset(CfgsWritten(b))
    && multiset(FileNames(Said(ExternPath, a))) == multiset(FileNames(Said(ExternPath, b)))
    && Said(StaticLib, a) == Said(StaticLib, b)
    && (Said(OutputDir, a) == [] <==> Said(OutputDir, b) == [])
  }

  /** Nor are libraries looked for anywhere else. */
  ghost predicate Unseen(a: seq<Argument>, b: seq<Argument>) {
    UnseenButForLibs(a, b) && Said(NativePath, a) == Said(NativePath, b)
  }

  lemma UnseenBefore(a: seq<Argument>, b: seq<Argument>, y: seq<Argument>)
    requires UnseenButForLibs(a, b)
    ensures UnseenButForLibs(a + y, b + y)
  {
    CoreMore(a, y);
    CoreMore(b, y);
    CfgsMore(a, y);
    CfgsMore(b, y);
    SaidMore(ExternPath, a, y);
    SaidMore(ExternPath, b, y);
    FileNamesMore(Said(ExternPath, a), Said(ExternPath, y));
    FileNamesMore(Said(ExternPath, b), Said(ExternPath, y));
    SaidMore(StaticLib, a, y);
    SaidMore(StaticLib, b, y);
    SaidMore(OutputDir, a, y);
    SaidMore(OutputDir, b, y);
  }

  lemma UnseenBehind(x: seq<Argument>, a: seq<Argument>, b: seq<Argument>)
    requires UnseenButForLibs(a, b)
    ensures UnseenButForLibs(x + a, x + b)
  {
    CoreMore(x, a);
    CoreMore(x, b);
    CfgsMore(x, a);
    CfgsMore(x, b);
    SaidMore(ExternPath, x, a);
    SaidMore(ExternPath, x, b);
    FileNamesMore(Said(ExternPath, x), Said(ExternPath, a));
    FileNamesMore(Said(ExternPath, x), Said(ExternPath, b));
    SaidMore(StaticLib, x, a);
    SaidMore(StaticLib, x, b);
    SaidMore(OutputDir, x, a);
    SaidMore(OutputDir, x, b);
  }

  /** The edit does not touch a leading `rustc`. */
  predicate KeepsLead(x: seq<string>, a: seq<string>, b: seq<string>, y: seq<string>) {
    x != [] || ((a + y == [] || (a + y)[0] != "rustc") && (b + y == [] || (b + y)[0] != "rustc"))
  }

  lemma DiscountNothing(z: seq<string>, probe: Probe)
    requires z == [] || z[0] != "rustc"
    ensures Discount(ItemsOf(ARGS, z, probe).items) == ItemsOf(ARGS, z, probe).items
  {
    if z != [] {
      ArgsWellFormed();
      RustcReads(ARGS, z, probe);
    }
  }

  lemma DiscountFirst(first: seq<Argument>, rest: seq<Argument>)
    requires first != []
    ensures Discount(first + rest) == Discount(first) + rest
  {
  }

  lemma ItemsDiscounted(x: seq<string>, z: seq<string>, probe: Probe)
    requires Whole(ARGS, x, probe) && (x != [] || z == [] || z[0] != "rustc")
    ensures Discount(ItemsOf(ARGS, x + z, probe).items) == Discount(ItemsOf(ARGS, x, probe).items) + ItemsOf(ARGS, z, probe).items
  {
    WholeAppend(ARGS, x, z, probe);
    if x == [] {
      assert x + z == z;
      DiscountNothing(z, probe);
    } else {
      WholeReads(ARGS, x, probe);
      DiscountFirst(ItemsOf(ARGS, x, probe).items, ItemsOf(ARGS, z, probe).items);
    }
  }

  /** Both command lines are refused, or both are parsed with one hash input. */
  ghost predicate SameKey(c: seq<string>, d: seq<string>, env: Env) {
    && (ParseOf(ARGS, c, env).Parsed? <==> ParseOf(ARGS, d, env).Parsed?)
    && (ParseOf(ARGS, c, env).Parsed? ==>
          forall read :: HashInput(ParseOf(ARGS, c, env).parsed, read) == HashInput(ParseOf(ARGS, d, env).parsed, read))
  }

  lemma AlikeSameKey(c: seq<string>, d: seq<string>, env: Env)
    requires ItemsOf(ARGS, c, env.probe).error == ItemsOf(ARGS, d, env.probe).error
    requires Alike(Discount(ItemsOf(ARGS, c, env.probe).items), env, Discount(ItemsOf(ARGS, d, env.probe).items), env)
    ensures SameKey(c, d, env)
  {
    if ItemsOf(ARGS, c, env.probe).error.Some? {
      ParsedExactlyWhen(ARGS, c, env);
      ParsedExactlyWhen(ARGS, d, env);
    } else {
      BothParsed(c, env, d, env);
      if ParseOf(ARGS, c, env).Parsed? {
        forall read ensures HashInput(ParseOf(ARGS, c, env).parsed, read) == HashInput(ParseOf(ARGS, d, env).parsed, read) {
          KeyInvariance.KeyInvariance(c, env, d, env, read);
        }
      }
    }
  }

  /** The libraries found for a command line. */
  function LibsOf(args: seq<string>, env: Env): seq<string> {
    LibsFound(Discount(ItemsOf(ARGS, args, env.probe).items), env)
  }

  /** The items of a command line with a run of arguments between two others. */
  lemma ItemsBetween(x: seq<string>, a: seq<string>, y: seq<string>, probe: Probe)
    requires Whole(ARGS, x, probe) && Whole(ARGS, a, probe) && (x != [] || a + y == [] || (a + y)[0] != "rustc")
    ensures var all := ItemsOf(ARGS, x + (a + y), probe);
            && all.error == ItemsOf(ARGS, y, probe).error
            && Discount(all.items) == Discount(ItemsOf(ARGS, x, probe).items) + (ItemsOf(ARGS, a, probe).items + ItemsOf(ARGS, y, probe).items)
  {
    WholeAppend(ARGS, a, y, probe);
    WholeAppend(ARGS, x, a + y, probe);
    ItemsDiscounted(x, a + y, probe);
  }

  /** Anywhere between whole arguments, one run of arguments can be put for
      another that the key does not tell from it, if libraries of the same
      names are found. */
  lemma EditBesideLibs(x: seq<string>, a: seq<string>, b: seq<string>, y: seq<string>, env: Env)
    requires Whole(ARGS, x, env.probe) && Whole(ARGS, a, env.probe) && Whole(ARGS, b, env.probe) && KeepsLead(x, a, b, y)
    requires UnseenButForLibs(ItemsOf(ARGS, a, env.probe).items, ItemsOf(ARGS, b, env.probe).items)
    requires multiset(FileNames(LibsOf(x + (a + y), env))) == multiset(FileNames(LibsOf(x + (b + y), env)))
    ensures SameKey(x + (a + y), x + (b + y), env)
  {
    var i, j, k := ItemsOf(ARGS, a, env.probe).items, ItemsOf(ARGS, b, env.probe).items, ItemsOf(ARGS, y, env.probe).items;
    ItemsBetween(x, a, y, env.probe);
    ItemsBetween(x, b, y, env.probe);
    UnseenBefore(i, j, k);
    UnseenBehind(Discount(ItemsOf(ARGS, x, env.probe).items), i + k, j + k);
    AlikeSameKey(x + (a + y), x + (b + y), env);
  }

  /** The same without regard to libraries. */
  lemma EditInvariance(x: seq<string>, a: seq<string>, b: seq<string>, y: seq<string>, env: Env)
    requires Whole(ARGS, x, env.probe) && Whole(ARGS, a, env.probe) && Whole(ARGS, b, env.probe) && KeepsLead(x, a, b, y)
    requires Unseen(ItemsOf(ARGS, a, env.probe).items, ItemsOf(ARGS, b, env.probe).items)
    ensures SameKey(x + (a + y), x + (b + y), env)
  {
    ItemsBetween(x, a, y, env.probe);
    ItemsBetween(x, b, y, env.probe);
    var w := Discount(ItemsOf(ARGS, x, env.probe).items);
    SameLibs(w, ItemsOf(ARGS, a, env.probe).items, ItemsOf(ARGS, b, env.probe).items, ItemsOf(ARGS, y, env.probe).items, env);
    EditBesideLibs(x, a, b, y, env);
  }

  lemma SameLibs(w: seq<Argument>, i: seq<Argument>, j: seq<Argument>, k: seq<Argument>, env: Env)
    requires Said(StaticLib, i) == Said(StaticLib, j) && Said(NativePath, i) == Said(NativePath, j)
    ensures LibsFound(w + (i + k), env) == LibsFound(w + (j + k), env)
  {
    SaidMore(StaticLib, i, k);
    SaidMore(StaticLib, j, k);
    SaidMore(StaticLib, w, i + k);
    SaidMore(StaticLib, w, j + k);
    SaidMore(NativePath, i, k);
    SaidMore(NativePath, j, k);
    SaidMore(NativePath, w, i + k);
    SaidMore(NativePath, w, j + k);
  }

  /** A flag and its value as two strings. */
  lemma PairReads(t: Table, e: ArgInfo, v: string, probe: Probe)
    requires Searchable(t) && e in t && e.TakeArg? && e.disposition.CanBeSeparated? && Create(e.kind, v, probe).Ok?
    ensures Whole(t, [e.name, v], probe)
    ensures ItemsOf(t, [e.name, v], probe) == Items([WithValue(e.name, Create(e.kind, v, probe).value, Separated)], None)
  {
    FindsItself(t, e, e.name);
    var args := [e.name, v];
    assert args[1..] == [v] && [v][1..] == [];
    assert Classify(t, args, probe).rest == [];
    FirstReads(t, args, probe);
  }

  lemma Listed()
    ensures Long("--check-cfg", Kind.PassThrough) in ARGS && Long("--diagnostic-width", Kind.PassThrough) in ARGS
    ensures Long("--color", Kind.Color) in ARGS && Long("--cfg", Kind.PassThrough) in ARGS
    ensures Long("--extern", Kind.Extern) in ARGS && Long("--out-dir", Kind.OutDir) in ARGS
  {
    LandmarksPassed();
    LandmarksHashed();
    LandmarksPlaced();
    LandmarkColor();
  }

  lemma LandmarkColor()
    ensures |ARGS| == 41 && ARGS[6] == Long("--color", Kind.Color)
  {
  }

  lemma Flagged(name: string, kind: Kind, v: string, probe: Probe)
    requires Long(name, kind) in ARGS && Create(kind, v, probe).Ok?
    ensures Whole(ARGS, [name, v], probe)
    ensures ItemsOf(ARGS, [name, v], probe).items == [WithValue(name, Create(kind, v, probe).value, Separated)]
  {
    ArgsSearchable();
    PairReads(ARGS, Long(name, kind), v, probe);
  }

  lemma CoreOfOne(a: Argument)
    ensures Core([a]) == if Outside(a) then [] else [a]
    ensures CfgsWritten([a]) == if IsCfg(a) then [Written(a)] else []
  {
    assert [a][1..] == [];
  }

  lemma SaidByOne(says: Argument -> Option<string>, a: Argument)
    ensures Said(says, [a]) == match says(a) case None => [] case Some(v) => [v]
  {
    assert [a][1..] == [];
  }

  /** One argument outside the core for another. */
  predicate Swappable(a: Argument, b: Argument) {
    && Outside(a) && Outside(b) && !IsCfg(a) && !IsCfg(b)
    && StaticLib(a) == StaticLib(b) == None && NativePath(a) == NativePath(b) == None
    && (OutputDir(a).Some? <==> OutputDir(b).Some?)
    && (match (ExternPath(a), ExternPath(b))
        case (None, None) => true
        case (Some(p), Some(q)) => FileName(p) == FileName(q)
        case _ => false)
  }

  lemma SwappedUnseen(a: Argument, b: Argument)
    requires Swappable(a, b)
    ensures Unseen([a], [b])
  {
    CoreOfOne(a);
    CoreOfOne(b);
    SaidByOne(StaticLib, a);
    SaidByOne(StaticLib, b);
    SaidByOne(NativePath, a);
    SaidByOne(NativePath, b);
    SaidByOne(OutputDir, a);
    SaidByOne(OutputDir, b);
    SaidByOne(ExternPath, a);
    SaidByOne(ExternPath, b);
    if ExternPath(a).Some? {
      OneFileName(ExternPath(a).value);
      OneFileName(ExternPath(b).value);
    }
  }

  lemma OneFileName(p: string)
    ensures FileNames([p]) == match FileName(p) case None => [] case Some(n) => [n]
  {
    assert [p][1..] == [];
  }

  function Read(name: string, kind: Kind, v: string, probe: Probe): Argument
    requires Create(kind, v, probe).Ok?
  {
    WithValue(name, Create(kind, v, probe).value, Separated)
  }

  lemma OutDirsSwap(p: string, q: string, probe: Probe)
    ensures Create(Kind.OutDir, p, probe).Ok? && Create(Kind.OutDir, q, probe).Ok?
    ensures Swappable(Read("--out-dir", Kind.OutDir, p, probe), Read("--out-dir", Kind.OutDir, q, probe))
  {
  }

  lemma ExternsSwap(n: string, p: string, m: string, q: string, probe: Probe)
    requires '=' !in n && '=' !in m && FileName(p) == FileName(q)
    ensures Create(Kind.Extern, n + "=" + p, probe).Ok? && Create(Kind.Extern, m + "=" + q, probe).Ok?
    ensures Swappable(Read("--extern", Kind.Extern, n + "=" + p, probe), Read("--extern", Kind.Extern, m + "=" + q, probe))
  {
    SplitOnceJoin(n, '=', p);
    SplitOnceJoin(m, '=', q);
  }

  /** Outside the core, and nothing to do with libraries. */
  predicate Movable(a: Argument) {
    Outside(a) && StaticLib(a) == None && NativePath(a) == None
  }

  lemma CfgMovable(v: string, probe: Probe)
    ensures Create(Kind.PassThrough, v, probe).Ok? && Movable(Read("--cfg", Kind.PassThrough, v, probe))
  {
  }

  lemma ExternMovable(v: string, probe: Probe)
    requires '=' in v
    ensures Create(Kind.Extern, v, probe).Ok? && Movable(Read("--extern", Kind.Extern, v, probe))
  {
    SplitOnceParts(v, '=');
  }

  lemma SwapInvariance(x: seq<string>, name: string, kind: Kind, v: string, w: string, y: seq<string>, env: Env)
    requires Whole(ARGS, x, env.probe) && Long(name, kind) in ARGS && name != "rustc"
    requires Create(kind, v, env.probe).Ok? && Create(kind, w, env.probe).Ok?
    requires Swappable(Read(name, kind, v, env.probe), Read(name, kind, w, env.probe))
    ensures SameKey(x + ([name, v] + y), x + ([name, w] + y), env)
  {
    Flagged(name, kind, v, env.probe);
    Flagged(name, kind, w, env.probe);
    SwappedUnseen(Read(name, kind, v, env.probe), Read(name, kind, w, env.probe));
    EditInvariance(x, [name, v], [name, w], y, env);
  }

  /** Outputs may go elsewhere. */
  lemma OutDirMayChange(x: seq<string>, p: string, q: string, y: seq<string>, env: Env)
    requires Whole(ARGS, x, env.probe)
    ensures SameKey(x + (["--out-dir", p] + y), x + (["--out-dir", q] + y), env)
  {
    Listed();
    OutDirsSwap(p, q, env.probe);
    SwapInvariance(x, "--out-dir", Kind.OutDir, p, q, y, env);
  }

  /** An extern may lie in another directory, and be known by another name. */
  lemma ExternMayBeElsewhere(x: seq<string>, n: string, p: string, m: string, q: string, y: seq<string>, env: Env)
    requires Whole(ARGS, x, env.probe) && '=' !in n && '=' !in m && FileName(p) == FileName(q)
    ensures SameKey(x + (["--extern", n + "=" + p] + y), x + (["--extern", m + "=" + q] + y), env)
  {
    Listed();
    ExternsSwap(n, p, m, q, env.probe);
    SwapInvariance(x, "--extern", Kind.Extern, n + "=" + p, m + "=" + q, y, env);
  }

  predicate Noise(name: string, kind: Kind) {
    ((name == "--check-cfg" || name == "--diagnostic-width") && kind.PassThrough?) || (name == "--color" && kind.Color?)
  }

  lemma NoiseUnseen(name: string, kind: Kind, v: string, probe: Probe)
    requires Noise(name, kind)
    ensures Unseen([WithValue(name, Create(kind, v, probe).value, Separated)], [])
  {
    var a := WithValue(name, Create(kind, v, probe).value, Separated);
    CoreOfOne(a);
    SaidByOne(StaticLib, a);
    SaidByOne(NativePath, a);
    SaidByOne(OutputDir, a);
    SaidByOne(ExternPath, a);
  }

  lemma NoiseInvariance(x: seq<string>, name: string, kind: Kind, v: string, y: seq<string>, env: Env)
    requires Noise(name, kind) && Long(name, kind) in ARGS && Whole(ARGS, x, env.probe) && KeepsLead(x, [name, v], [], y)
    ensures SameKey(x + ([name, v] + y), x + ([] + y), env)
  {
    var none: seq<string> := [];
    NoiseReads(name, kind, v, env.probe);
    NothingReads(env.probe);
    EditInvariance(x, [name, v], none, y, env);
  }

  lemma NothingReads(probe: Probe)
    ensures Whole(ARGS, [], probe) && ItemsOf(ARGS, [], probe).items == []
  {
  }

  lemma NoiseReads(name: string, kind: Kind, v: string, probe: Probe)
    requires Noise(name, kind) && Long(name, kind) in ARGS
    ensures Whole(ARGS, [name, v], probe) && Unseen(ItemsOf(ARGS, [name, v], probe).items, [])
  {
    Flagged(name, kind, v, probe);
    NoiseUnseen(name, kind, v, probe);
  }

  /** A lint, a width or a colour may come or go. */
  lemma NoiseIsIgnored(x: seq<string>, name: string, v: string, y: seq<string>, env: Env)
    requires name == "--check-cfg" || name == "--diagnostic-width" || name == "--color"
    requires Whole(ARGS, x, env.probe) && KeepsLead(x, [name, v], [], y)
    ensures SameKey(x + ([name, v] + y), x + y, env)
  {
    Listed();
    assert [] + y == y;
    NoiseInvariance(x, name, if name == "--color" then Kind.Color else Kind.PassThrough, v, y, env);
  }

  lemma Commutes(a: seq<string>, b: seq<string>)
    ensures multiset(a + b) == multiset(b + a)
  {
  }

  lemma SaidMoved(says: Argument -> Option<string>, a: Argument, i: seq<Argument>)
    ensures multiset(Said(says, [a] + i)) == multiset(Said(says, i + [a]))
    ensures says(a) == None ==> Said(says, [a] + i) == Said(says, i + [a])
    ensures Said(says, [a] + i) == [] <==> Said(says, i + [a]) == []
  {
    SaidMore(says, [a], i);
    SaidMore(says, i, [a]);
    SaidByOne(says, a);
    Commutes(Said(says, [a]), Said(says, i));
  }

  lemma ExternMoved(a: Argument, i: seq<Argument>)
    ensures multiset(FileNames(Said(ExternPath, [a] + i))) == multiset(FileNames(Said(ExternPath, i + [a])))
  {
    SaidMore(ExternPath, [a], i);
    SaidMore(ExternPath, i, [a]);
    FileNamesMore(Said(ExternPath, [a]), Said(ExternPath, i));
    FileNamesMore(Said(ExternPath, i), Said(ExternPath, [a]));
    Commutes(FileNames(Said(ExternPath, [a])), FileNames(Said(ExternPath, i)));
  }

  lemma MovedUnseen(a: Argument, i: seq<Argument>)
    requires Movable(a)
    ensures Unseen([a] + i, i + [a])
  {
    CoreOfOne(a);
    CoreMore([a], i);
    CoreMore(i, [a]);
    CfgsMore([a], i);
    CfgsMore(i, [a]);
    Commutes(CfgsWritten([a]), CfgsWritten(i));
    ExternMoved(a, i);
    SaidMoved(StaticLib, a, i);
    SaidMoved(NativePath, a, i);
    SaidMoved(OutputDir, a, i);
  }

  lemma MoveInvariance(x: seq<string>, name: string, kind: Kind, v: string, m: seq<string>, y: seq<string>, env: Env)
    requires Long(name, kind) in ARGS && Create(kind, v, env.probe).Ok?
    requires Movable(Read(name, kind, v, env.probe))
    requires Whole(ARGS, x, env.probe) && Whole(ARGS, m, env.probe) && KeepsLead(x, [name, v] + m, m + [name, v], y)
    ensures SameKey(x + ([name, v] + m + y), x + (m + [name, v] + y), env)
  {
    Flagged(name, kind, v, env.probe);
    WholeAppend(ARGS, [name, v], m, env.probe);
    WholeAppend(ARGS, m, [name, v], env.probe);
    WholeConcat(ARGS, [name, v], m, env.probe);
    WholeConcat(ARGS, m, [name, v], env.probe);
    MovedUnseen(Read(name, kind, v, env.probe), ItemsOf(ARGS, m, env.probe).items);
    EditInvariance(x, [name, v] + m, m + [name, v], y, env);
  }

  /** A `--cfg` may move past any other arguments. */
  lemma CfgMayMove(x: seq<string>, v: string, m: seq<string>, y: seq<string>, env: Env)
    requires Whole(ARGS, x, env.probe) && Whole(ARGS, m, env.probe) && KeepsLead(x, ["--cfg", v] + m, m + ["--cfg", v], y)
    ensures SameKey(x + (["--cfg", v] + m + y), x + (m + ["--cfg", v] + y), env)
  {
    Listed();
    CfgMovable(v, env.probe);
    MoveInvariance(x, "--cfg", Kind.PassThrough, v, m, y, env);
  }

  /** So may an extern. */
  lemma ExternMayMove(x: seq<string>, v: string, m: seq<string>, y: seq<string>, env: Env)
    requires Whole(ARGS, x, env.probe) && Whole(ARGS, m, env.probe) && KeepsLead(x, ["--extern", v] + m, m + ["--extern", v], y)
    requires '=' in v
    ensures SameKey(x + (["--extern", v] + m + y), x + (m + ["--extern", v] + y), env)
  {
    Listed();
    ExternMovable(v, env.probe);
    MoveInvariance(x, "--extern", Kind.Extern, v, m, y, env);
  }

  lemma LandmarkLinkPath()
    ensures Short("-L", Kind.LinkPath) in ARGS
  {
    LandmarksPlaced();
  }

  lemma LinkPathReads(v: string, probe: Probe)
    ensures Whole(ARGS, ["-L", v], probe)
    ensures exists a :: ItemsOf(ARGS, ["-L", v], probe).items == [a] && a.WithValue? && a.name == "-L" && a.data.LinkPath?
  {
    LandmarkLinkPath();
    ArgsSearchable();
    PairReads(ARGS, Short("-L", Kind.LinkPath), v, probe);
  }

  lemma LinkPathUnseen(a: Argument)
    requires a.WithValue? && a.name == "-L" && a.data.LinkPath?
    ensures UnseenButForLibs([a], [])
  {
    CoreOfOne(a);
    SaidByOne(StaticLib, a);
    SaidByOne(OutputDir, a);
    SaidByOne(ExternPath, a);
  }

  lemma LinkPathsUnseen(v: string, w: string, probe: Probe)
    ensures UnseenButForLibs(ItemsOf(ARGS, ["-L", v], probe).items, ItemsOf(ARGS, ["-L", w], probe).items)
    ensures UnseenButForLibs(ItemsOf(ARGS, ["-L", v], probe).items, ItemsOf(ARGS, [], probe).items)
  {
    LinkPathReads(v, probe);
    LinkPathReads(w, probe);
    var a :| ItemsOf(ARGS, ["-L", v], probe).items == [a] && a.WithValue? && a.name == "-L" && a.data.LinkPath?;
    var b :| ItemsOf(ARGS, ["-L", w], probe).items == [b] && b.WithValue? && b.name == "-L" && b.data.LinkPath?;
    LinkPathUnseen(a);
    LinkPathUnseen(b);
  }

  /** Link paths may be others, if the static libraries found keep their names. */
  lemma LinkPathMayChange(x: seq<string>, v: string, w: string, y: seq<string>, env: Env)
    requires Whole(ARGS, x, env.probe)
    requires multiset(FileNames(LibsOf(x + (["-L", v] + y), env))) == multiset(FileNames(LibsOf(x + (["-L", w] + y), env)))
    ensures SameKey(x + (["-L", v] + y), x + (["-L", w] + y), env)
  {
    LinkPathReads(v, env.probe);
    LinkPathReads(w, env.probe);
    LinkPathsUnseen(v, w, env.probe);
    EditBesideLibs(x, ["-L", v], ["-L", w], y, env);
  }

  /** Under the same condition one may come or go. */
  lemma LinkPathMayGo(x: seq<string>, v: string, y: seq<string>, env: Env)
    requires Whole(ARGS, x, env.probe) && KeepsLead(x, ["-L", v], [], y)
    requires multiset(FileNames(LibsOf(x + (["-L", v] + y), env))) == multiset(FileNames(LibsOf(x + y, env)))
    ensures SameKey(x + (["-L", v] + y), x + y, env)
  {
    assert [] + y == y;
    LinkPathReads(v, env.probe);
    LinkPathsUnseen(v, v, env.probe);
    EditBesideLibs(x, ["-L", v], [], y, env);
  }
}
