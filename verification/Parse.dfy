/** Reading a whole rustc command line: what it says, or why it is not one to
    cache. */
module Parse {
  import opened Wrappers
  import opened Strings
  import opened Paths
  import opened ArgTable
  import opened RustcArgs

  datatype ColorMode = Off | On | Auto

  datatype ParsedArguments = ParsedArguments(
    arguments: seq<Argument>,
    input: string,
    outputDir: string,
    externs: seq<string>,
    crateLinkPaths: seq<string>,
    staticlibs: seq<string>,
    crateName: string,
    rlib: bool,
    staticlib: bool,
    depInfo: Option<string>,
    profile: Option<string>,
    emit: set<string>,
    colorMode: ColorMode,
    hasJson: bool,
    targetJson: Option<string>)

  /** What a refusal says beside its reason. */
  datatype Extra =
    | Nothing
    | BadArgument(error: ArgError)
    | OtherCrateTypes(types: seq<string>)
    | TwoInputs(previous: string, next: Argument)
    | NoCrateType

  datatype ParseOutcome =
    | Parsed(parsed: ParsedArguments)
    | CannotCache(why: string, extra: Extra)
    | NotACompilation

  /** What the command line says so far, its arguments and colours aside. */
  datatype Gathered = Gathered(
    emit: Option<set<string>>,
    input: Option<string>,
    outputDir: Option<string>,
    crateName: Option<string>,
    rlib: bool,
    staticlib: bool,
    extraFilename: Option<string>,
    externs: seq<string>,
    crateLinkPaths: seq<string>,
    staticLibNames: seq<string>,
    staticLinkPaths: seq<string>,
    hasJson: bool,
    profile: Option<string>,
    targetJson: Option<string>)

  const START := Gathered(None, None, None, None, false, false, None, [], [], [], [], false, None, None)

  /** The file system: how a `--target` reads, and which libraries exist. */
  datatype Env = Env(cwd: string, probe: Probe, exists_: string -> bool)

  predicate SearchedForCrates(kind: string) {
    kind == "crate" || kind == "dependency" || kind == "all"
  }

  predicate SearchedForNative(kind: string) {
    kind == "native" || kind == "all"
  }

  function SetOf(parts: seq<string>): set<string> {
    set p <- parts
  }

  function ColorModeOf(value: string): ColorMode {
    if value == "always" then On else if value == "never" then Off else Auto
  }

  /** One argument's effect, or the refusal it causes. */
  function Visit(g: Gathered, a: Argument, cwd: string): Result<Gathered, ParseOutcome> {
    match a
    case Raw(text) =>
      if g.input.Some? then Err(CannotCache("multiple input files", TwoInputs(g.input.value, a)))
      else Ok(g.(input := Some(text)))
    case UnknownFlag(_) => Ok(g)
    case Flag(name, data) => VisitData(g, name, data, cwd)
    case WithValue(name, data, _) => VisitData(g, name, data, cwd)
  }

  function VisitData(g: Gathered, name: string, data: ArgData, cwd: string): Result<Gathered, ParseOutcome> {
    match data
    case TooHardFlag => Err(CannotCache(name, Nothing))
    case TooHardPath(_) => Err(CannotCache(name, Nothing))
    case NotCompilationFlag => Err(NotACompilation)
    case NotCompilation(_) => Err(NotACompilation)
    case LinkLibrary(kind, lib) =>
      Ok(if kind == "static" then g.(staticLibNames := g.staticLibNames + [lib]) else g)
    case LinkPath(kind, path) =>
      Ok(g.(crateLinkPaths := g.crateLinkPaths + (if SearchedForCrates(kind) then [PathJoin(cwd, path)] else []),
            staticLinkPaths := g.staticLinkPaths + if SearchedForNative(kind) then [PathJoin(cwd, path)] else []))
    case Emit(value) =>
      if g.emit.Some? then Err(CannotCache("more than one --emit", Nothing))
      else Ok(g.(emit := Some(SetOf(Split(value, ',')))))
    case CrateType(types) =>
      if types.others != [] then Err(CannotCache("crate-type", OtherCrateTypes(types.others)))
      else Ok(g.(rlib := g.rlib || types.rlib, staticlib := g.staticlib || types.staticlib))
    case CrateName(value) => Ok(g.(crateName := Some(value)))
    case OutDir(path) => Ok(g.(outputDir := Some(path)))
    case Extern(_, path) => Ok(g.(externs := g.externs + [path]))
    case CodeGen(opt, setting) =>
      if opt == "extra-filename" then
        if setting.Some? then Ok(g.(extraFilename := setting)) else Err(CannotCache("extra-filename", Nothing))
      else if opt == "profile-use" && setting.Some? then Ok(g.(profile := setting))
      else if opt == "incremental" then Err(CannotCache("incremental", Nothing))
      else Ok(g)
    case Unstable(_, _) => Ok(g)
    case Color(_) => Ok(g)
    case Json(_) => Ok(g.(hasJson := true))
    case PassThrough(_) => Ok(g)
    case Target(kind, value) =>
      match kind
      case IsPath => Ok(g.(targetJson := Some(value)))
      case IsUnsure => Err(CannotCache("target unsure", Nothing))
      case IsName => Ok(g)
  }

  function Walk(g: Gathered, items: seq<Argument>, cwd: string): Result<Gathered, ParseOutcome>
    decreases |items|
  {
    if items == [] then Ok(g)
    else match Visit(g, items[0], cwd)
      case Err(o) => Err(o)
      case Ok(h) => Walk(h, items[1..], cwd)
  }

  predicate IsColor(a: Argument) {
    (a.Flag? || a.WithValue?) && a.data.Color?
  }

  function WithoutColors(items: seq<Argument>): seq<Argument> {
    if items == [] then []
    else (if IsColor(items[0]) then [] else [items[0]]) + WithoutColors(items[1..])
  }

  function LastColor(mode: ColorMode, items: seq<Argument>): ColorMode
    decreases |items|
  {
    if items == [] then mode
    else LastColor(if IsColor(items[0]) then ColorModeOf(items[0].data.value) else mode, items[1..])
  }

  /** A leading `rustc` is not an input. */
  function Discount(items: seq<Argument>): seq<Argument> {
    if items != [] && items[0] == Raw("rustc") then items[1..] else items
  }

  function LibNames(name: string): seq<string> {
    ["lib" + name + ".a", name + ".lib", name + ".a"]
  }

  function FirstExisting(dir: string, names: seq<string>, exists_: string -> bool): Option<string> {
    if names == [] then None
    else if exists_(PathJoin(dir, names[0])) then Some(PathJoin(dir, names[0]))
    else FirstExisting(dir, names[1..], exists_)
  }

  function FindLib(name: string, dirs: seq<string>, exists_: string -> bool): Option<string> {
    if dirs == [] then None
    else
      var here := FirstExisting(dirs[0], LibNames(name), exists_);
      if here.Some? then here else FindLib(name, dirs[1..], exists_)
  }

  function FindLibs(names: seq<string>, dirs: seq<string>, exists_: string -> bool): seq<string> {
    if names == [] then []
    else (match FindLib(names[0], dirs, exists_) case None => [] case Some(p) => [p]) + FindLibs(names[1..], dirs, exists_)
  }

  const ALLOWED_EMIT := {"link", "metadata", "dep-info"}

  /** The checks once everything has been read. */
  function Conclude(g: Gathered, args: seq<Argument>, color: ColorMode, env: Env): ParseOutcome {
    if g.input.None? then CannotCache("missing input", Nothing)
    else if g.outputDir.None? then CannotCache("missing output_dir", Nothing)
    else if g.emit.None? then CannotCache("missing emit", Nothing)
    else if g.crateName.None? then CannotCache("missing crate_name", Nothing)
    else if g.emit.value != {} && "link" !in g.emit.value && "metadata" !in g.emit.value then NotACompilation
    else if !g.rlib && !g.staticlib then CannotCache("crate-type", NoCrateType)
    else if !(g.emit.value <= ALLOWED_EMIT) then CannotCache("unsupported --emit", Nothing)
    else
      Parsed(ParsedArguments(
        args, g.input.value, g.outputDir.value, SortPaths(g.externs), g.crateLinkPaths,
        FindLibs(g.staticLibNames, g.staticLinkPaths, env.exists_), g.crateName.value, g.rlib, g.staticlib,
        if "dep-info" in g.emit.value then
          Some((if g.extraFilename.Some? then g.crateName.value + g.extraFilename.value else g.crateName.value) + ".d")
        else None,
        if "link" in g.emit.value then g.profile else None,
        g.emit.value, color, g.hasJson, g.targetJson))
  }

  /** The outcome, given what was gathered before `items`. */
  function Judge(g: Gathered, args: seq<Argument>, color: ColorMode, rest: Items, env: Env): ParseOutcome {
    match Walk(g, rest.items, env.cwd)
    case Err(o) => o
    case Ok(h) =>
      if rest.error.Some? then CannotCache("argument parse", BadArgument(rest.error.value))
      else Conclude(h, args + WithoutColors(rest.items), LastColor(color, rest.items), env)
  }

  /** What `parse_arguments` computes. */
  function ParseOf(t: Table, args: seq<string>, env: Env): ParseOutcome {
    var all := ItemsOf(t, args, env.probe);
    Judge(START, [], Auto, all.(items := Discount(all.items)), env)
  }

  /** Looks for a static library in each directory under each name it may have. */
  method LocateLib(name: string, dirs: seq<string>, exists_: string -> bool) returns (found: Option<string>)
    ensures found == FindLib(name, dirs, exists_)
  {
    var names := LibNames(name);
    for i := 0 to |dirs|
      invariant FindLib(name, dirs, exists_) == FindLib(name, dirs[i..], exists_)
    {
      for j := 0 to |names|
        invariant FirstExisting(dirs[i], names, exists_) == FirstExisting(dirs[i], names[j..], exists_)
      {
        var path := PathJoin(dirs[i], names[j]);
        if exists_(path) {
          return Some(path);
        }
        assert names[j..][1..] == names[j + 1..];
      }
      assert dirs[i..][1..] == dirs[i + 1..];
    }
    found := None;
  }

  /** The candidates for library `name` in order: in each directory as on Unix,
      as on Windows, and bare. */
  function Candidate(name: string, dirs: seq<string>, k: nat): string
    requires k < 3 * |dirs|
  {
    PathJoin(dirs[k / 3], if k % 3 == 0 then "lib" + name + ".a" else if k % 3 == 1 then name + ".lib" else name + ".a")
  }

  /** What is found is the first candidate that exists. */
  lemma {:induction false} FindLibIsFirst(name: string, dirs: seq<string>, exists_: string -> bool)
    ensures match FindLib(name, dirs, exists_)
            case None => forall k: nat | k < 3 * |dirs| :: !exists_(Candidate(name, dirs, k))
            case Some(p) => exists k: nat | k < 3 * |dirs| :: IsFirst(name, dirs, exists_, k) && p == Candidate(name, dirs, k)
  {
    if dirs != [] {
      var rest := dirs[1..];
      FirstOfThree(name, dirs, exists_);
      FindLibIsFirst(name, rest, exists_);
      assert forall k: nat | k < 3 * |rest| :: Candidate(name, rest, k) == Candidate(name, dirs, k + 3);
      assert forall k: nat | 3 <= k < 3 * |dirs| :: Candidate(name, dirs, k) == Candidate(name, rest, k - 3);
      var here := FirstExisting(dirs[0], LibNames(name), exists_);
      if here.None? && FindLib(name, rest, exists_).Some? {
        var k: nat :| k < 3 * |rest| && IsFirst(name, rest, exists_, k) && FindLib(name, rest, exists_).value == Candidate(name, rest, k);
        assert IsFirst(name, dirs, exists_, k + 3);
      }
    }
  }

  lemma OfThree(dir: string, a: string, b: string, c: string, exists_: string -> bool)
    ensures FirstExisting(dir, [a, b, c], exists_)
            == if exists_(PathJoin(dir, a)) then Some(PathJoin(dir, a))
               else if exists_(PathJoin(dir, b)) then Some(PathJoin(dir, b))
               else if exists_(PathJoin(dir, c)) then Some(PathJoin(dir, c))
               else None
  {
    assert [a, b, c][1..] == [b, c] && [b, c][1..] == [c] && [c][1..] == [];
    assert FirstExisting(dir, [c], exists_) == if exists_(PathJoin(dir, c)) then Some(PathJoin(dir, c)) else None;
  }

  lemma FirstOfThree(name: string, dirs: seq<string>, exists_: string -> bool)
    requires dirs != []
    ensures match FirstExisting(dirs[0], LibNames(name), exists_)
            case None => forall k: nat | k < 3 :: !exists_(Candidate(name, dirs, k))
            case Some(p) => exists k: nat | k < 3 :: IsFirst(name, dirs, exists_, k) && p == Candidate(name, dirs, k)
  {
    var names := LibNames(name);
    OfThree(dirs[0], names[0], names[1], names[2], exists_);
    assert Candidate(name, dirs, 0) == PathJoin(dirs[0], names[0]);
    assert Candidate(name, dirs, 1) == PathJoin(dirs[0], names[1]);
    assert Candidate(name, dirs, 2) == PathJoin(dirs[0], names[2]);
    var k: nat := if exists_(Candidate(name, dirs, 0)) then 0 else if exists_(Candidate(name, dirs, 1)) then 1 else 2;
    if exists_(Candidate(name, dirs, k)) { assert IsFirst(name, dirs, exists_, k); }
  }

  predicate IsFirst(name: string, dirs: seq<string>, exists_: string -> bool, k: nat) {
    k < 3 * |dirs| && exists_(Candidate(name, dirs, k)) && forall j: nat | j < k :: !exists_(Candidate(name, dirs, j))
  }

  method LocateLibs(names: seq<string>, dirs: seq<string>, exists_: string -> bool) returns (found: seq<string>)
    ensures found == FindLibs(names, dirs, exists_)
  {
    found := [];
    for i := 0 to |names|
      invariant found == FindLibs(names[..i], dirs, exists_)
    {
      var lib := LocateLib(names[i], dirs, exists_);
      MoreLibs(names[..i], names[i], dirs, exists_);
      assert names[..i + 1] == names[..i] + [names[i]];
      if lib.Some? {
        found := found + [lib.value];
      }
    }
    assert names[..|names|] == names;
  }

  lemma {:induction false} MoreLibs(names: seq<string>, name: string, dirs: seq<string>, exists_: string -> bool)
    ensures FindLibs(names + [name], dirs, exists_)
            == FindLibs(names, dirs, exists_) + match FindLib(name, dirs, exists_) case None => [] case Some(p) => [p]
  {
    if names == [] {
      assert [name][1..] == [];
    } else {
      assert (names + [name])[1..] == names[1..] + [name];
      MoreLibs(names[1..], name, dirs, exists_);
    }
  }

  function KeepArg(args: seq<Argument>, a: Argument): seq<Argument> {
    if IsColor(a) then args else args + [a]
  }

  function KeepColor(color: ColorMode, a: Argument): ColorMode {
    if IsColor(a) then ColorModeOf(a.data.value) else color
  }

  lemma FirstItem(args: seq<Argument>, color: ColorMode, a: Argument, items: seq<Argument>)
    ensures args + WithoutColors([a] + items) == KeepArg(args, a) + WithoutColors(items)
    ensures LastColor(color, [a] + items) == LastColor(KeepColor(color, a), items)
  {
    assert ([a] + items)[1..] == items;
  }

  lemma WalkFirst(g: Gathered, a: Argument, items: seq<Argument>, cwd: string)
    ensures var step := Visit(g, a, cwd);
            Walk(g, [a] + items, cwd) == if step.Err? then step else Walk(step.value, items, cwd)
  {
    assert ([a] + items)[1..] == items;
  }

  lemma JudgeStep(g: Gathered, args: seq<Argument>, color: ColorMode, a: Argument, rest: Items, env: Env)
    ensures var step := Visit(g, a, env.cwd);
            Judge(g, args, color, rest.(items := [a] + rest.items), env)
            == if step.Err? then step.error else Judge(step.value, KeepArg(args, a), KeepColor(color, a), rest, env)
  {
    WalkFirst(g, a, rest.items, env.cwd);
    FirstItem(args, color, a, rest.items);
  }

  /** The outcome from the middle of the loop: `first` until one argument has
      been looked at. */
  function Outlook(
      t: Table, g: Gathered, args: seq<Argument>, color: ColorMode, first: bool, left: seq<string>, env: Env): ParseOutcome {
    var all := ItemsOf(t, left, env.probe);
    Judge(g, args, color, if first then all.(items := Discount(all.items)) else all, env)
  }

  /** The outcome once `p` has been read. */
  function OutlookAfter(
      t: Table, g: Gathered, args: seq<Argument>, color: ColorMode, first: bool, p: Processed, env: Env): ParseOutcome {
    if p.result.Err? then CannotCache("argument parse", BadArgument(p.result.error))
    else
      var a := Normalize(p.result.value);
      if first && a == Raw("rustc") then Outlook(t, g, args, color, false, p.rest, env)
      else
        var step := Visit(g, a, env.cwd);
        if step.Err? then step.error
        else Outlook(t, step.value, KeepArg(args, a), KeepColor(color, a), false, p.rest, env)
  }

  lemma OutlookStep(
      t: Table, g: Gathered, args: seq<Argument>, color: ColorMode, first: bool, left: seq<string>, env: Env)
    requires left != []
    ensures Outlook(t, g, args, color, first, left, env)
            == OutlookAfter(t, g, args, color, first, Classify(t, left, env.probe), env)
  {
    var p := Classify(t, left, env.probe);
    if p.result.Ok? {
      var a, rest := Normalize(p.result.value), ItemsOf(t, p.rest, env.probe);
      assert ([a] + rest.items)[1..] == rest.items;
      JudgeStep(g, args, color, a, rest, env);
    }
  }

  /** `parse_arguments`: one pass over the arguments, returning at the first that
      settles the matter. */
  method ParseArguments(t: Table, arguments: seq<string>, env: Env) returns (outcome: ParseOutcome)
    ensures outcome == ParseOf(t, arguments, env)
  {
    var args: seq<Argument> := [];
    var colorMode := Auto;
    var g := START;
    var iter := new ArgsIter(arguments, t, env.probe);
    var idx := 0;
    while true
      invariant fresh(iter) && iter.t == t && iter.probe == env.probe
      invariant Outlook(t, g, args, colorMode, idx == 0, iter.arguments, env) == ParseOf(t, arguments, env)
      decreases |iter.arguments|
    {
      if iter.arguments != [] { OutlookStep(t, g, args, colorMode, idx == 0, iter.arguments, env); }
      var next := iter.Next();
      if next.None? {
        break;
      }
      idx := idx + 1;
      if next.value.Err? {
        return CannotCache("argument parse", BadArgument(next.value.error));
      }
      var arg := Normalize(next.value.value);
      if idx == 1 && arg == Raw("rustc") {
        continue;
      }
      var step := Visit(g, arg, env.cwd);
      if step.Err? {
        return step.error;
      }
      g := step.value;
      if IsColor(arg) {
        colorMode := ColorModeOf(arg.data.value);
      } else {
        args := args + [arg];
      }
    }
    outcome := Finish(g, args, colorMode, env);
  }

  /** The required values are unwrapped and the last checks made. */
  method Finish(g: Gathered, args: seq<Argument>, color: ColorMode, env: Env) returns (outcome: ParseOutcome)
    ensures outcome == Conclude(g, args, color, env)
  {
    if g.input.None? { return CannotCache("missing input", Nothing); }
    if g.outputDir.None? { return CannotCache("missing output_dir", Nothing); }
    if g.emit.None? { return CannotCache("missing emit", Nothing); }
    if g.crateName.None? { return CannotCache("missing crate_name", Nothing); }
    var emit := g.emit.value;
    if emit != {} && "link" !in emit && "metadata" !in emit {
      return NotACompilation;
    }
    if !g.rlib && !g.staticlib {
      return CannotCache("crate-type", NoCrateType);
    }
    if !(emit <= ALLOWED_EMIT) {
      return CannotCache("unsupported --emit", Nothing);
    }
    var depInfo: Option<string> := None;
    if "dep-info" in emit {
      var name := g.crateName.value;
      if g.extraFilename.Some? {
        name := name + g.extraFilename.value;
      }
      depInfo := Some(name + ".d");
    }
    var staticlibs := LocateLibs(g.staticLibNames, g.staticLinkPaths, env.exists_);
    outcome := Parsed(ParsedArguments(
      args, g.input.value, g.outputDir.value, SortPaths(g.externs), g.crateLinkPaths, staticlibs, g.crateName.value,
      g.rlib, g.staticlib, depInfo, if "link" in emit then g.profile else None, emit, color, g.hasJson, g.targetJson));
  }
}
