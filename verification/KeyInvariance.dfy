/** What the cache key does not depend on, and what it cannot lose. */
module KeyInvariance {
  import opened Wrappers
  import opened Strings
  import opened Paths
  import opened ArgTable
  import opened RustcTable
  import opened RustcArgs
  import opened Parse
  import opened ParseMeaning
  import opened Reparse
  import opened Digest

  /** The flags the digest knows by name have the values it takes them to have. */
  predicate Typed(a: Argument) {
    a.WithValue? ==>
      && (a.name == "--extern" ==> a.data.Extern?)
      && (a.name == "-L" ==> a.data.LinkPath?)
      && (a.name == "--out-dir" ==> a.data.OutDir?)
      && (a.name == "--check-cfg" ==> a.data.PassThrough?)
      && (a.name == "--diagnostic-width" ==> a.data.PassThrough?)
      && (a.name == "--cfg" ==> a.data.PassThrough?)
      && (a.name == "--target" ==> a.data.Target?)
  }

  lemma LandmarksHashed()
    ensures |ARGS| == 41 && ARGS[3] == Long("--cfg", Kind.PassThrough) && ARGS[27] == Long("--target", Kind.Target)
  {
  }

  lemma LandmarksPassed()
    ensures |ARGS| == 41 && ARGS[4] == Long("--check-cfg", Kind.PassThrough) && ARGS[10] == Long("--diagnostic-width", Kind.PassThrough)
  {
  }

  lemma LandmarksPlaced()
    ensures |ARGS| == 41 && ARGS[16] == Long("--extern", Kind.Extern) && ARGS[21] == Long("--out-dir", Kind.OutDir)
    ensures ARGS[35] == Short("-L", Kind.LinkPath)
  {
  }

  lemma NamesAreUnique(t: Table, e: ArgInfo, j: nat)
    requires Searchable(t) && e in t && j < |t| && e.name == t[j].name
    ensures e == t[j]
  {
    var k :| 0 <= k < |t| && t[k] == e;
    LessIrreflexive(e.name);
  }

  lemma NameFixesKind(t: Table, name: string, kind: Kind, j: nat)
    requires Searchable(t) && j < |t| && t[j].TakeArg? && t[j].name == name && t[j].kind == kind
    ensures forall e | e in t && e.TakeArg? && e.name == name :: e.kind == kind
  {
    forall e | e in t && e.TakeArg? && e.name == name ensures e.kind == kind {
      NamesAreUnique(t, e, j);
    }
  }

  ghost predicate TypedTable(t: Table) {
    forall e | e in t && e.TakeArg? ::
      && (e.name == "--extern" ==> e.kind == Kind.Extern)
      && (e.name == "-L" ==> e.kind == Kind.LinkPath)
      && (e.name == "--out-dir" ==> e.kind == Kind.OutDir)
      && (e.name == "--check-cfg" ==> e.kind == Kind.PassThrough)
      && (e.name == "--diagnostic-width" ==> e.kind == Kind.PassThrough)
      && (e.name == "--cfg" ==> e.kind == Kind.PassThrough)
      && (e.name == "--target" ==> e.kind == Kind.Target)
  }

  lemma ArgsTyped()
    ensures TypedTable(ARGS)
  {
    ArgsSearchable();
    LandmarksHashed();
    LandmarksPassed();
    LandmarksPlaced();
    NameFixesKind(ARGS, "--extern", Kind.Extern, 16);
    NameFixesKind(ARGS, "-L", Kind.LinkPath, 35);
    NameFixesKind(ARGS, "--out-dir", Kind.OutDir, 21);
    NameFixesKind(ARGS, "--check-cfg", Kind.PassThrough, 4);
    NameFixesKind(ARGS, "--diagnostic-width", Kind.PassThrough, 10);
    NameFixesKind(ARGS, "--cfg", Kind.PassThrough, 3);
    NameFixesKind(ARGS, "--target", Kind.Target, 27);
  }

  lemma OriginTyped(t: Table, a: Argument, probe: Probe)
    requires TypedTable(t) && Origin(t, a, probe)
    ensures Typed(a)
  {
    if a.WithValue? {
      if a.disposition.Separated? {
        var e, v :| e in t && ReadFrom(e, a.name, a.data, v, probe);
      } else {
        var e :| e in t && BareFlag(e) && ReadFrom(e, a.name, a.data, "", probe);
      }
    }
  }

  lemma {:induction false} ReadableTyped(t: Table, items: seq<Argument>, probe: Probe)
    requires TypedTable(t) && Readable(t, items, probe)
    ensures forall a <- items :: Typed(a)
  {
    if items != [] {
      OriginTyped(t, items[0], probe);
      ReadableTyped(t, items[1..], probe);
      assert items == [items[0]] + items[1..];
    }
  }

  lemma ItemsTyped(args: seq<string>, env: Env)
    ensures forall a <- Discount(ItemsOf(ARGS, args, env.probe).items) :: Typed(a)
  {
    ArgsTyped();
    ArgsValuesMayFollow();
    ItemsReadable(ARGS, args, env.probe);
    ReadableTyped(ARGS, ItemsOf(ARGS, args, env.probe).items, env.probe);
  }

  /** An argument outside the core of a command line: never hashed, hashed in
      sorted order, or dropped. */
  predicate Outside(a: Argument) {
    a.WithValue? && (NeverHashed(a.name) || a.name == "--cfg" || a.data.Color?)
  }

  function Core(items: seq<Argument>): seq<Argument> {
    if items == [] then []
    else if Outside(items[0]) then Core(items[1..])
    else [items[0]] + Core(items[1..])
  }

  lemma {:induction false} InCore(items: seq<Argument>)
    ensures forall a :: a in Core(items) <==> a in items && !Outside(a)
  {
    if items != [] {
      InCore(items[1..]);
      assert items == [items[0]] + items[1..];
    }
  }

  lemma {:induction false} SaidCore(says: Argument -> Option<string>, items: seq<Argument>)
    requires forall a | a in items && Outside(a) :: says(a) == None
    ensures Said(says, Core(items)) == Said(says, items)
  {
    if items != [] {
      assert forall a <- items[1..] :: a in items;
      SaidCore(says, items[1..]);
      if !Outside(items[0]) { assert ([items[0]] + Core(items[1..]))[1..] == Core(items[1..]); }
    }
  }

  lemma OutsideSaysNothing(a: Argument)
    requires Typed(a) && Outside(a)
    ensures Harmless(a) && Input(a) == None && EmitList(a) == None && NameOfCrate(a) == None && ExtraFilename(a) == None
    ensures Profile(a) == None && JsonTarget(a) == None && StaticLib(a) == None && !MakesRlib(a) && !MakesStaticlib(a)
  {
  }

  lemma CoreDecides(items: seq<Argument>)
    requires forall a <- items :: Typed(a)
    ensures Acceptable(items) <==> Acceptable(Core(items))
    ensures Complete(items) <==> Said(OutputDir, items) != [] && CoreComplete(Core(items))
    ensures Said(JsonTarget, items) == Said(JsonTarget, Core(items)) && Said(StaticLib, items) == Said(StaticLib, Core(items))
  {
    forall a | a in items && Outside(a)
      ensures Harmless(a) && Input(a) == None && EmitList(a) == None && NameOfCrate(a) == None
      ensures JsonTarget(a) == None && StaticLib(a) == None && !MakesRlib(a) && !MakesStaticlib(a)
    {
      OutsideSaysNothing(a);
    }
    InCore(items);
    SaidCore(Input, items);
    SaidCore(EmitList, items);
    SaidCore(NameOfCrate, items);
    SaidCore(JsonTarget, items);
    SaidCore(StaticLib, items);
  }

  predicate CoreComplete(core: seq<Argument>) {
    && Said(Input, core) != [] && Said(NameOfCrate, core) != [] && Said(EmitList, core) != []
    && (var emit := SetOf(Split(Said(EmitList, core)[0], ','));
        emit <= ALLOWED_EMIT && ("link" in emit || "metadata" in emit))
    && exists a <- core :: MakesRlib(a) || MakesStaticlib(a)
  }

  lemma CfgIsHashed(a: Argument, targetJson: bool)
    requires IsCfg(a)
    ensures ShouldHash(a, targetJson)
  {
  }

  /** The two parts of the hashed argument list. */
  function Others(items: seq<Argument>, targetJson: bool): seq<string> {
    OthersWritten(Kept(items, targetJson))
  }

  function Cfgs(items: seq<Argument>, targetJson: bool): seq<string> {
    CfgsWritten(Kept(items, targetJson))
  }

  lemma FirstHashed(a: Argument, rest: seq<Argument>, targetJson: bool)
    ensures Others([a] + rest, targetJson)
            == (if ShouldHash(a, targetJson) && !IsCfg(a) then [Written(a)] else []) + Others(rest, targetJson)
    ensures Cfgs([a] + rest, targetJson)
            == (if ShouldHash(a, targetJson) && IsCfg(a) then [Written(a)] else []) + Cfgs(rest, targetJson)
  {
    assert ([a] + rest)[1..] == rest;
    WrittenFirst(a, Kept(rest, targetJson));
  }

  lemma {:induction false} HashedFromCore(items: seq<Argument>, targetJson: bool)
    requires forall a <- items :: Typed(a) && !a.Flag?
    ensures Others(WithoutColors(items), targetJson) == Others(Core(items), targetJson)
    ensures Cfgs(WithoutColors(items), targetJson) == CfgsWritten(items)
  {
    if items != [] {
      var a, rest := items[0], items[1..];
      HashedFromCore(rest, targetJson);
      assert Typed(a);
      if IsColor(a) {
        assert WithoutColors(items) == WithoutColors(rest) && Core(items) == Core(rest) && !IsCfg(a);
      } else {
        FirstHashed(a, WithoutColors(rest), targetJson);
        if IsCfg(a) {
          CfgIsHashed(a, targetJson);
        } else if !Outside(a) {
          FirstHashed(a, Core(rest), targetJson);
        }
      }
    }
  }

  lemma {:induction false} FileNamesInsert(le: (string, string) -> bool, x: string, s: seq<string>)
    ensures multiset(FileNames(InsertBy(le, x, s))) == multiset(FileNames([x] + s))
  {
    assert ([x] + s)[1..] == s;
    if s != [] && !le(x, s[0]) {
      FileNamesInsert(le, x, s[1..]);
      var r := InsertBy(le, x, s[1..]);
      assert ([s[0]] + r)[1..] == r && ([x] + s[1..])[1..] == s[1..];
    }
  }

  lemma {:induction false} FileNamesSort(le: (string, string) -> bool, s: seq<string>)
    ensures multiset(FileNames(SortBy(le, s))) == multiset(FileNames(s))
  {
    if s != [] {
      FileNamesSort(le, s[1..]);
      FileNamesInsert(le, s[0], SortBy(le, s[1..]));
      assert ([s[0]] + SortBy(le, s[1..]))[1..] == SortBy(le, s[1..]);
    }
  }

  /** The libraries found for a command line. */
  function LibsFound(items: seq<Argument>, env: Env): seq<string> {
    FindLibs(Said(StaticLib, items), Joined(env.cwd, Said(NativePath, items)), env.exists_)
  }

  /** Two command lines that differ only in the order and place of `--cfg`
      arguments, in where externs, libraries and outputs are, in the order of
      externs, and in lints, colours and width of diagnostics. */
  ghost predicate Alike(x: seq<Argument>, env1: Env, y: seq<Argument>, env2: Env) {
    && Core(x) == Core(y)
    && multiset(CfgsWritten(x)) == multiset(CfgsWritten(y))
    && multiset(FileNames(Said(ExternPath, x))) == multiset(FileNames(Said(ExternPath, y)))
    && multiset(FileNames(LibsFound(x, env1))) == multiset(FileNames(LibsFound(y, env2)))
    && (Said(OutputDir, x) == [] <==> Said(OutputDir, y) == [])
  }

  /** What the hash input of a parsed command line is made of. */
  function InputFrom(items: seq<Argument>, env: Env, read: string -> Option<string>): Option<string> {
    var json := Last(Said(JsonTarget, Core(items)));
    var common := Concat(Others(Core(items), json.Some?) + Sort(CfgsWritten(items)))
                  + HashedNames(FileNames(Said(ExternPath, items))) + HashedNames(FileNames(LibsFound(items, env)));
    match json
    case None => Some(common)
    case Some(path) => match read(path) case None => None case Some(contents) => Some(common + contents)
  }

  lemma NamesHashedAlike(a: seq<string>, b: seq<string>)
    requires multiset(a) == multiset(b)
    ensures HashedNames(a) == HashedNames(b)
  {
    SortCanonical(a, b);
  }

  lemma NoFlags(items: seq<Argument>)
    requires Acceptable(items) && forall a <- items :: a.Flag? ==> a.data.TooHardFlag? || a.data.NotCompilationFlag?
    ensures forall a <- items :: !a.Flag?
  {
    forall a <- items ensures !a.Flag? { assert Harmless(a); }
  }

  lemma {:induction false} ReadableFlags(t: Table, items: seq<Argument>, probe: Probe)
    requires Readable(t, items, probe)
    ensures forall a <- items :: a.Flag? ==> a.data.TooHardFlag? || a.data.NotCompilationFlag?
  {
    if items != [] {
      ReadableFlags(t, items[1..], probe);
      assert items == [items[0]] + items[1..];
    }
  }

  lemma ParsedHasNoFlags(args: seq<string>, env: Env)
    requires ParseOf(ARGS, args, env).Parsed?
    ensures forall a <- Discount(ItemsOf(ARGS, args, env.probe).items) :: Typed(a) && !a.Flag?
  {
    var items := Discount(ItemsOf(ARGS, args, env.probe).items);
    ItemsTyped(args, env);
    ArgsValuesMayFollow();
    ItemsReadable(ARGS, args, env.probe);
    ReadableFlags(ARGS, ItemsOf(ARGS, args, env.probe).items, env.probe);
    ParsedExactlyWhen(ARGS, args, env);
    NoFlags(items);
  }

  lemma ConcludedFields(g: Gathered, args: seq<Argument>, color: ColorMode, env: Env)
    requires Conclude(g, args, color, env).Parsed?
    ensures var p := Conclude(g, args, color, env).parsed;
            && p.arguments == args && p.externs == SortPaths(g.externs) && p.targetJson == g.targetJson
            && p.staticlibs == FindLibs(g.staticLibNames, g.staticLinkPaths, env.exists_)
  {
  }

  lemma ParsedFields(args: seq<string>, env: Env)
    requires ParseOf(ARGS, args, env).Parsed?
    ensures var p, items := ParseOf(ARGS, args, env).parsed, Discount(ItemsOf(ARGS, args, env.probe).items);
            && p.arguments == WithoutColors(items)
            && p.externs == SortPaths(Said(ExternPath, items)) && p.staticlibs == LibsFound(items, env)
            && p.targetJson == Last(Said(JsonTarget, items))
  {
    var items := Discount(ItemsOf(ARGS, args, env.probe).items);
    ParsedIsConcluded(ARGS, args, env);
    ConcludedFields(Meaning(items, env.cwd), WithoutColors(items), LastColor(Auto, items), env);
  }

  lemma InputIs(p: ParsedArguments, items: seq<Argument>, env: Env, read: string -> Option<string>)
    requires forall a <- items :: Typed(a) && !a.Flag?
    requires p.arguments == WithoutColors(items) && p.targetJson == Last(Said(JsonTarget, items))
    requires p.externs == SortPaths(Said(ExternPath, items)) && p.staticlibs == LibsFound(items, env)
    ensures HashInput(p, read) == InputFrom(items, env, read)
  {
    CoreDecides(items);
    HashedFromCore(items, p.targetJson.Some?);
    FileNamesSort(PathAtMost, Said(ExternPath, items));
    NamesHashedAlike(FileNames(p.externs), FileNames(Said(ExternPath, items)));
  }

  lemma HashInputIs(args: seq<string>, env: Env, read: string -> Option<string>)
    requires ParseOf(ARGS, args, env).Parsed?
    ensures HashInput(ParseOf(ARGS, args, env).parsed, read) == InputFrom(Discount(ItemsOf(ARGS, args, env.probe).items), env, read)
  {
    ParsedFields(args, env);
    ParsedHasNoFlags(args, env);
    InputIs(ParseOf(ARGS, args, env).parsed, Discount(ItemsOf(ARGS, args, env.probe).items), env, read);
  }

  lemma InputsAlike(x: seq<Argument>, env1: Env, y: seq<Argument>, env2: Env, read: string -> Option<string>)
    requires Alike(x, env1, y, env2)
    ensures InputFrom(x, env1, read) == InputFrom(y, env2, read)
  {
    SortCanonical(CfgsWritten(x), CfgsWritten(y));
    NamesHashedAlike(FileNames(Said(ExternPath, x)), FileNames(Said(ExternPath, y)));
    NamesHashedAlike(FileNames(LibsFound(x, env1)), FileNames(LibsFound(y, env2)));
  }

  /** Such differences matter neither to whether a command line is parsed nor to
      what is hashed for it. */
  lemma KeyInvariance(args1: seq<string>, env1: Env, args2: seq<string>, env2: Env, read: string -> Option<string>)
    requires ItemsOf(ARGS, args1, env1.probe).error == None && ItemsOf(ARGS, args2, env2.probe).error == None
    requires Alike(Discount(ItemsOf(ARGS, args1, env1.probe).items), env1, Discount(ItemsOf(ARGS, args2, env2.probe).items), env2)
    ensures ParseOf(ARGS, args1, env1).Parsed? <==> ParseOf(ARGS, args2, env2).Parsed?
    ensures ParseOf(ARGS, args1, env1).Parsed? ==>
              HashInput(ParseOf(ARGS, args1, env1).parsed, read) == HashInput(ParseOf(ARGS, args2, env2).parsed, read)
  {
    var x, y := Discount(ItemsOf(ARGS, args1, env1.probe).items), Discount(ItemsOf(ARGS, args2, env2.probe).items);
    BothParsed(args1, env1, args2, env2);
    if ParseOf(ARGS, args1, env1).Parsed? {
      HashInputIs(args1, env1, read);
      HashInputIs(args2, env2, read);
      InputsAlike(x, env1, y, env2, read);
    }
  }

  lemma BothParsed(args1: seq<string>, env1: Env, args2: seq<string>, env2: Env)
    requires ItemsOf(ARGS, args1, env1.probe).error == None && ItemsOf(ARGS, args2, env2.probe).error == None
    requires Alike(Discount(ItemsOf(ARGS, args1, env1.probe).items), env1, Discount(ItemsOf(ARGS, args2, env2.probe).items), env2)
    ensures ParseOf(ARGS, args1, env1).Parsed? <==> ParseOf(ARGS, args2, env2).Parsed?
  {
    ParsedByCore(args1, env1);
    ParsedByCore(args2, env2);
  }

  lemma ParsedByCore(args: seq<string>, env: Env)
    requires ItemsOf(ARGS, args, env.probe).error == None
    ensures var items := Discount(ItemsOf(ARGS, args, env.probe).items);
            ParseOf(ARGS, args, env).Parsed? <==> Acceptable(Core(items)) && CoreComplete(Core(items)) && Said(OutputDir, items) != []
  {
    ItemsTyped(args, env);
    CoreDecides(Discount(ItemsOf(ARGS, args, env.probe).items));
    ParsedExactlyWhen(ARGS, args, env);
  }

  lemma {:induction false} SaidKept(says: Argument -> Option<string>, items: seq<Argument>, targetJson: bool)
    requires forall a | a in items && !ShouldHash(a, targetJson) :: says(a) == None
    ensures Said(says, Kept(items, targetJson)) == Said(says, items)
  {
    if items != [] {
      assert forall a <- items[1..] :: a in items;
      SaidKept(says, items[1..], targetJson);
      if ShouldHash(items[0], targetJson) {
        assert ([items[0]] + Kept(items[1..], targetJson))[1..] == Kept(items[1..], targetJson);
      }
    }
  }

  lemma {:induction false} InKept(items: seq<Argument>, targetJson: bool)
    ensures forall a :: a in Kept(items, targetJson) <==> a in items && ShouldHash(a, targetJson)
  {
    if items != [] {
      InKept(items[1..], targetJson);
      assert items == [items[0]] + items[1..];
    }
  }

  lemma DroppedSaysNothing(a: Argument, targetJson: bool)
    requires Typed(a) && !a.Flag? && !ShouldHash(a, targetJson)
    ensures Input(a) == None && EmitList(a) == None && NameOfCrate(a) == None && ExtraFilename(a) == None && Profile(a) == None
    ensures !MakesRlib(a) && !MakesStaticlib(a)
  {
  }

  /** Of a meaning, what decides which files are cached and from what. */
  function Decisive(g: Gathered): Gathered {
    START.(emit := g.emit, input := g.input, crateName := g.crateName, rlib := g.rlib, staticlib := g.staticlib,
           extraFilename := g.extraFilename, profile := g.profile)
  }

  lemma KeptMeans(items: seq<Argument>, targetJson: bool, cwd1: string, cwd2: string)
    requires forall a <- items :: Typed(a) && !a.Flag?
    ensures Decisive(Meaning(Kept(items, targetJson), cwd1)) == Decisive(Meaning(items, cwd2))
  {
    forall a | a in items && !ShouldHash(a, targetJson)
      ensures Input(a) == None && EmitList(a) == None && NameOfCrate(a) == None && ExtraFilename(a) == None && Profile(a) == None
      ensures !MakesRlib(a) && !MakesStaticlib(a)
    {
      DroppedSaysNothing(a, targetJson);
    }
    InKept(items, targetJson);
    SaidKept(Input, items, targetJson);
    SaidKept(EmitList, items, targetJson);
    SaidKept(NameOfCrate, items, targetJson);
    SaidKept(ExtraFilename, items, targetJson);
    SaidKept(Profile, items, targetJson);
  }

  lemma ArgumentsDecide(args: seq<string>, env: Env, targetJson: bool)
    requires ParseOf(ARGS, args, env).Parsed?
    ensures var p := ParseOf(ARGS, args, env).parsed;
            var g := Decisive(Meaning(Kept(p.arguments, targetJson), ""));
            && g.input == Some(p.input) && g.emit == Some(p.emit) && g.crateName == Some(p.crateName)
            && g.rlib == p.rlib && g.staticlib == p.staticlib
            && p.depInfo == (if "dep-info" in p.emit then
                               Some((if g.extraFilename.Some? then p.crateName + g.extraFilename.value else p.crateName) + ".d")
                             else None)
            && p.profile == if "link" in p.emit then g.profile else None
  {
    var items := Discount(ItemsOf(ARGS, args, env.probe).items);
    ParsedIsConcluded(ARGS, args, env);
    ParsedHasNoFlags(args, env);
    ColorsGone(items);
    MeaningWithoutColors(items, env.cwd);
    KeptMeans(WithoutColors(items), targetJson, "", env.cwd);
  }

  /** The filter drops nothing that decides what is cached: where the kept
      arguments are equal, so are the input, the emitted modes, the crate's name
      and types, the dep-info file and the profile. */
  lemma KeptArgumentsDecide(args1: seq<string>, env1: Env, args2: seq<string>, env2: Env)
    requires ParseOf(ARGS, args1, env1).Parsed? && ParseOf(ARGS, args2, env2).Parsed?
    requires var p, q := ParseOf(ARGS, args1, env1).parsed, ParseOf(ARGS, args2, env2).parsed;
             Kept(p.arguments, p.targetJson.Some?) == Kept(q.arguments, q.targetJson.Some?)
    ensures var p, q := ParseOf(ARGS, args1, env1).parsed, ParseOf(ARGS, args2, env2).parsed;
            && p.input == q.input && p.emit == q.emit && p.crateName == q.crateName && p.rlib == q.rlib && p.staticlib == q.staticlib
            && p.depInfo == q.depInfo && p.profile == q.profile
  {
    ArgumentsDecide(args1, env1, ParseOf(ARGS, args1, env1).parsed.targetJson.Some?);
    ArgumentsDecide(args2, env2, ParseOf(ARGS, args2, env2).parsed.targetJson.Some?);
  }
}
