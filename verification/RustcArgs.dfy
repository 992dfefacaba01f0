/** One rustc argument: from the command line to a typed value, to its one
    canonical spelling, and back to strings. */
module RustcArgs {
  import opened Wrappers
  import opened Strings
  import opened ArgTable

  /** What `--target` was given: a name, a JSON file, or a name that a JSON file
      beside it makes doubtful. The file system decides; it is an oracle here. */
  datatype TargetKind = IsName | IsPath | IsUnsure
  type Probe = string -> TargetKind

  /** `others` lists a set in order. */
  datatype CrateTypes = CrateTypes(rlib: bool, staticlib: bool, others: seq<string>)

  datatype ArgData =
    | TooHardFlag
    | TooHardPath(path: string)
    | NotCompilationFlag
    | NotCompilation(value: string)
    | LinkLibrary(kind: string, name: string)
    | LinkPath(kind: string, path: string)
    | Emit(value: string)
    | Extern(name: string, path: string)
    | Color(value: string)
    | Json(value: string)
    | CrateName(value: string)
    | CrateType(types: CrateTypes)
    | OutDir(path: string)
    | CodeGen(opt: string, setting: Option<string>)
    | PassThrough(value: string)
    | Target(target: TargetKind, value: string)
    | Unstable(opt: string, setting: Option<string>)

  datatype ArgError = UnexpectedEndOfArgs | NoPathForExtern

  datatype Argument =
    | Raw(text: string)
    | UnknownFlag(text: string)
    | Flag(name: string, data: ArgData)
    | WithValue(name: string, data: ArgData, disposition: Disposition)

  /** Drops neighbours that are equal: of a sorted list, the duplicates. */
  function Unique(s: seq<string>): seq<string> {
    if |s| < 2 then s
    else if s[0] == s[1] then Unique(s[1..])
    else [s[0]] + Unique(s[1..])
  }

  predicate IsRlib(ty: string) {
    ty == "lib" || ty == "rlib"
  }

  function OtherTypes(types: seq<string>): seq<string> {
    if types == [] then []
    else (if IsRlib(types[0]) || types[0] == "staticlib" then [] else [types[0]]) + OtherTypes(types[1..])
  }

  function CrateTypesOf(types: seq<string>): CrateTypes {
    CrateTypes(exists ty <- types :: IsRlib(ty), "staticlib" in types, Unique(Sort(OtherTypes(types))))
  }

  function Join(parts: seq<string>, c: char): string {
    if parts == [] then ""
    else if |parts| == 1 then parts[0]
    else parts[0] + [c] + Join(parts[1..], c)
  }

  /** The `FromArg` of each kind of value. */
  function Create(kind: Kind, v: string, probe: Probe): Result<ArgData, ArgError> {
    match kind
    case TooHardPath => Ok(ArgData.TooHardPath(v))
    case NotCompilation => Ok(ArgData.NotCompilation(v))
    case LinkLibrary =>
      var (k, name) := SplitOnce(v, '=');
      Ok(if name.Some? then ArgData.LinkLibrary(k, name.value) else ArgData.LinkLibrary("dylib", k))
    case LinkPath =>
      var (k, path) := SplitOnce(v, '=');
      Ok(if path.Some? then ArgData.LinkPath(k, path.value) else ArgData.LinkPath("all", k))
    case Emit => Ok(ArgData.Emit(v))
    case Extern =>
      var (name, path) := SplitOnce(v, '=');
      if path.Some? then Ok(ArgData.Extern(name, path.value)) else Err(NoPathForExtern)
    case Color => Ok(ArgData.Color(v))
    case Json => Ok(ArgData.Json(v))
    case CrateName => Ok(ArgData.CrateName(v))
    case CrateType => Ok(ArgData.CrateType(CrateTypesOf(Split(v, ','))))
    case OutDir => Ok(ArgData.OutDir(v))
    case CodeGen => var (opt, setting) := SplitOnce(v, '='); Ok(ArgData.CodeGen(opt, setting))
    case PassThrough => Ok(ArgData.PassThrough(v))
    case Target => Ok(ArgData.Target(probe(v), v))
    case Unstable => var (opt, setting) := SplitOnce(v, '='); Ok(ArgData.Unstable(opt, setting))
  }

  /** `into_arg_os_string`. */
  function IntoArg(data: ArgData): string {
    match data
    case TooHardFlag => ""
    case TooHardPath(path) => path
    case NotCompilationFlag => ""
    case NotCompilation(v) => v
    case LinkLibrary(kind, name) => kind + "=" + name
    case LinkPath(kind, path) => kind + "=" + path
    case Emit(v) => v
    case Extern(name, path) => name + "=" + path
    case Color(v) => v
    case Json(v) => v
    case CrateName(v) => v
    case CrateType(CrateTypes(rlib, staticlib, others)) =>
      Join(Sort(others + (if rlib then ["rlib"] else []) + if staticlib then ["staticlib"] else []), ',')
    case OutDir(path) => path
    case CodeGen(opt, setting) => if setting.Some? then opt + "=" + setting.value else opt
    case PassThrough(v) => v
    case Target(_, v) => v
    case Unstable(opt, setting) => if setting.Some? then opt + "=" + setting.value else opt
  }

  /** What an argument's flag makes of it, and the arguments still to come. */
  datatype Processed = Processed(result: Result<Argument, ArgError>, rest: seq<string>)

  function Valued(name: string, data: Result<ArgData, ArgError>, disposition: Disposition): Result<Argument, ArgError> {
    match data
    case Ok(v) => Ok(WithValue(name, v, disposition))
    case Err(e) => Err(e)
  }

  function ProcessFlag(name: string, arg: string, what: FlagKind): Result<Argument, ArgError>
    requires name == arg
  {
    Ok(Argument.Flag(name, if what.TooHardFlag? then ArgData.TooHardFlag else ArgData.NotCompilationFlag))
  }

  function ProcessSeparated(name: string, arg: string, kind: Kind, rest: seq<string>, probe: Probe): Processed
    requires name == arg
  {
    if rest == [] then Processed(Err(UnexpectedEndOfArgs), [])
    else Processed(Valued(name, Create(kind, rest[0], probe), Separated), rest[1..])
  }

  function ProcessConcatenated(name: string, arg: string, kind: Kind, d: Delimiter, probe: Probe): Result<Argument, ArgError>
    requires name <= arg
  {
    var len := if d.Some? && |arg| > |name| && arg[|name|] == d.value then |name| + 1 else |name|;
    Valued(name, Create(kind, arg[len..], probe), Concatenated(d))
  }

  function ProcessEither(name: string, arg: string, kind: Kind, d: Delimiter, rest: seq<string>, probe: Probe): Processed
    requires name <= arg
  {
    var derived :=
      if arg == name then ProcessSeparated(name, arg, kind, rest, probe)
      else Processed(ProcessConcatenated(name, arg, kind, d, probe), rest);
    match derived.result
    case Err(UnexpectedEndOfArgs) =>
      if d.None? then derived.(result := Valued(name, Create(kind, "", probe), Concatenated(d))) else derived
    case Ok(WithValue(s, v, Concatenated(c))) => derived.(result := Ok(WithValue(s, v, CanBeSeparated(c))))
    case Ok(WithValue(s, v, Separated)) => derived.(result := Ok(WithValue(s, v, CanBeConcatenated(d))))
    case _ => derived
  }

  /** `ArgInfo::process`; what the source asserts of its callers is required. */
  function Process(a: ArgInfo, arg: string, rest: seq<string>, probe: Probe): (p: Processed)
    requires Matches(a, arg)
    ensures |p.rest| <= |rest|
  {
    match a
    case Flag(name, what) => Processed(ProcessFlag(name, arg, what), rest)
    case TakeArg(name, kind, Separated) => ProcessSeparated(name, arg, kind, rest, probe)
    case TakeArg(name, kind, Concatenated(d)) => Processed(ProcessConcatenated(name, arg, kind, d, probe), rest)
    case TakeArg(name, kind, CanBeSeparated(d)) => ProcessEither(name, arg, kind, d, rest, probe)
    case TakeArg(name, kind, CanBeConcatenated(d)) => ProcessEither(name, arg, kind, d, rest, probe)
  }

  function AsWritten(found: Option<ArgInfo>, arg: string, rest: seq<string>, probe: Probe): (p: Processed)
    requires found.Some? ==> Matches(found.value, arg)
    ensures |p.rest| <= |rest|
  {
    match found
    case Some(a) => Process(a, arg, rest, probe)
    case None => Processed(Ok(if "-" <= arg then UnknownFlag(arg) else Raw(arg)), rest)
  }

  /** The first argument of `args`, with the value it may take from the next. */
  function Classify(t: Table, args: seq<string>, probe: Probe): Processed
    requires args != []
  {
    AsWritten(Bisect(t, args[0]), args[0], args[1..], probe)
  }

  class ArgsIter {
    const t: Table
    const probe: Probe
    var arguments: seq<string>

    constructor (arguments: seq<string>, t: Table, probe: Probe)
      ensures this.arguments == arguments && this.t == t && this.probe == probe
    {
      this.arguments, this.t, this.probe := arguments, t, probe;
    }

    method Next() returns (item: Option<Result<Argument, ArgError>>)
      modifies this
      ensures old(arguments) == [] ==> item == None && arguments == []
      ensures old(arguments) != [] ==>
                var p := Classify(t, old(arguments), probe); item == Some(p.result) && arguments == p.rest
    {
      if arguments == [] {
        return None;
      }
      var arg := arguments[0];
      arguments := arguments[1..];
      var found := Search(t, arg);
      var p := AsWritten(found, arg, arguments, probe);
      arguments := p.rest;
      item := Some(p.result);
    }
  }

  /** One spelling for what could have been written either way. */
  function Normalize(a: Argument): Argument {
    if a.WithValue? && (a.disposition.CanBeConcatenated? || a.disposition.CanBeSeparated?) then
      a.(disposition := Separated)
    else a
  }

  function EmitConcatenated(name: string, data: ArgData, d: Delimiter): string {
    var v := IntoArg(data);
    name + (if d.Some? && v != "" then [d.value] else "") + v
  }

  /** The strings an argument is written as. */
  function Emitted(a: Argument): seq<string> {
    match a
    case Raw(s) => [s]
    case UnknownFlag(s) => [s]
    case Flag(name, _) => [name]
    case WithValue(name, data, Separated) => [name, IntoArg(data)]
    case WithValue(name, data, CanBeConcatenated(_)) => [name, IntoArg(data)]
    case WithValue(name, data, CanBeSeparated(d)) => [EmitConcatenated(name, data, d)]
    case WithValue(name, data, Concatenated(d)) => [EmitConcatenated(name, data, d)]
  }

  /** `iter_os_strings`: an iterator that counts what it has emitted. */
  class OsStrings {
    const arg: Argument
    var emitted: nat

    constructor (arg: Argument)
      ensures this.arg == arg && emitted == 0
    {
      this.arg, emitted := arg, 0;
    }

    method Next() returns (s: Option<string>)
      modifies this
      ensures if old(emitted) < |Emitted(arg)| then s == Some(Emitted(arg)[old(emitted)]) && emitted == old(emitted) + 1
              else s == None && emitted == old(emitted)
    {
      match arg {
        case Raw(text) => s := if emitted == 0 then Some(text) else None;
        case UnknownFlag(text) => s := if emitted == 0 then Some(text) else None;
        case Flag(name, _) => s := if emitted == 0 then Some(name) else None;
        case WithValue(name, data, disposition) =>
          if disposition.CanBeSeparated? || disposition.Concatenated? {
            s := if emitted == 0 then Some(EmitConcatenated(name, data, disposition.delimiter)) else None;
          } else {
            s := if emitted == 0 then Some(name) else if emitted == 1 then Some(IntoArg(data)) else None;
          }
      }
      if s.Some? {
        emitted := emitted + 1;
      }
    }
  }

  /** A whole command line, each argument in its canonical spelling, up to the
      first that cannot be read. */
  datatype Items = Items(items: seq<Argument>, error: Option<ArgError>)

  function ItemsOf(t: Table, args: seq<string>, probe: Probe): Items
    decreases |args|
  {
    if args == [] then Items([], None)
    else
      var p := Classify(t, args, probe);
      match p.result
      case Err(e) => Items([], Some(e))
      case Ok(a) => var rest := ItemsOf(t, p.rest, probe); rest.(items := [Normalize(a)] + rest.items)
  }

  function EmitAll(items: seq<Argument>): seq<string> {
    if items == [] then [] else Emitted(items[0]) + EmitAll(items[1..])
  }
}
