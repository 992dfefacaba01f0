/** What the parse loop computes, said without a loop. */
module ParseMeaning {
  import opened Wrappers
  import opened Strings
  import opened Paths
  import opened ArgTable
  import opened RustcArgs
  import opened Parse

  function DataOf(a: Argument): Option<ArgData> {
    if a.Flag? || a.WithValue? then Some(a.data) else None
  }

  // What an argument says on each subject, if anything.
  function Input(a: Argument): Option<string> {
    if a.Raw? then Some(a.text) else None
  }

  function EmitList(a: Argument): Option<string> {
    match DataOf(a) case Some(Emit(v)) => Some(v) case _ => None
  }

  function OutputDir(a: Argument): Option<string> {
    match DataOf(a) case Some(OutDir(p)) => Some(p) case _ => None
  }

  function NameOfCrate(a: Argument): Option<string> {
    match DataOf(a) case Some(CrateName(v)) => Some(v) case _ => None
  }

  function ExtraFilename(a: Argument): Option<string> {
    match DataOf(a) case Some(CodeGen(opt, setting)) => if opt == "extra-filename" then setting else None case _ => None
  }

  function Profile(a: Argument): Option<string> {
    match DataOf(a) case Some(CodeGen(opt, setting)) => if opt == "profile-use" then setting else None case _ => None
  }

  function ExternPath(a: Argument): Option<string> {
    match DataOf(a) case Some(Extern(_, p)) => Some(p) case _ => None
  }

  function StaticLib(a: Argument): Option<string> {
    match DataOf(a) case Some(LinkLibrary(kind, name)) => if kind == "static" then Some(name) else None case _ => None
  }

  function CratePath(a: Argument): Option<string> {
    match DataOf(a) case Some(LinkPath(kind, p)) => if SearchedForCrates(kind) then Some(p) else None case _ => None
  }

  function NativePath(a: Argument): Option<string> {
    match DataOf(a) case Some(LinkPath(kind, p)) => if SearchedForNative(kind) then Some(p) else None case _ => None
  }

  function JsonTarget(a: Argument): Option<string> {
    match DataOf(a) case Some(Target(IsPath, v)) => Some(v) case _ => None
  }

  predicate MakesRlib(a: Argument) {
    match DataOf(a) case Some(CrateType(types)) => types.rlib case _ => false
  }

  predicate MakesStaticlib(a: Argument) {
    match DataOf(a) case Some(CrateType(types)) => types.staticlib case _ => false
  }

  predicate AsksJson(a: Argument) {
    match DataOf(a) case Some(Json(_)) => true case _ => false
  }

  /** Everything said on one subject, in order. */
  function Said(says: Argument -> Option<string>, items: seq<Argument>): seq<string> {
    if items == [] then []
    else (match says(items[0]) case None => [] case Some(v) => [v]) + Said(says, items[1..])
  }

  function Last(said: seq<string>): Option<string> {
    if said == [] then None else Some(said[|said| - 1])
  }

  function Joined(cwd: string, paths: seq<string>): seq<string> {
    seq(|paths|, i requires 0 <= i < |paths| => PathJoin(cwd, paths[i]))
  }

  /** The last word on each subject, all of the lists, and what anyone asked. */
  function Meaning(items: seq<Argument>, cwd: string): Gathered {
    Gathered(
      match Last(Said(EmitList, items)) case None => None case Some(v) => Some(SetOf(Split(v, ','))),
      Last(Said(Input, items)),
      Last(Said(OutputDir, items)),
      Last(Said(NameOfCrate, items)),
      exists a <- items :: MakesRlib(a),
      exists a <- items :: MakesStaticlib(a),
      Last(Said(ExtraFilename, items)),
      Said(ExternPath, items),
      Joined(cwd, Said(CratePath, items)),
      Said(StaticLib, items),
      Joined(cwd, Said(NativePath, items)),
      exists a <- items :: AsksJson(a),
      Last(Said(Profile, items)),
      Last(Said(JsonTarget, items)))
  }

  /** An argument that no command line to be cached may have. */
  predicate Harmless(a: Argument) {
    match DataOf(a)
    case None => true
    case Some(TooHardFlag) => false
    case Some(TooHardPath(_)) => false
    case Some(NotCompilationFlag) => false
    case Some(NotCompilation(_)) => false
    case Some(CrateType(types)) => types.others == []
    case Some(CodeGen(opt, setting)) => opt != "incremental" && (opt == "extra-filename" ==> setting.Some?)
    case Some(Target(kind, _)) => !kind.IsUnsure?
    case _ => true
  }

  /** Nothing in `items` is a reason to give up. */
  predicate Acceptable(items: seq<Argument>) {
    && (forall a <- items :: Harmless(a))
    && |Said(Input, items)| <= 1
    && |Said(EmitList, items)| <= 1
  }

  /** Why `a` is the first reason to give up, after `before`. */
  function Refusal(before: seq<Argument>, a: Argument): (outcome: ParseOutcome)
    ensures !outcome.Parsed?
  {
    match DataOf(a)
    case None => CannotCache("multiple input files", TwoInputs(if Said(Input, before) == [] then "" else Said(Input, before)[0], a))
    case Some(NotCompilationFlag) => NotACompilation
    case Some(NotCompilation(_)) => NotACompilation
    case Some(Emit(_)) => CannotCache("more than one --emit", Nothing)
    case Some(CrateType(types)) => CannotCache("crate-type", OtherCrateTypes(types.others))
    case Some(CodeGen(opt, _)) => CannotCache(opt, Nothing)
    case Some(Target(_, _)) => CannotCache("target unsure", Nothing)
    case Some(_) => CannotCache(a.name, Nothing)
  }

  lemma {:induction false} SaidMore(says: Argument -> Option<string>, items: seq<Argument>, more: seq<Argument>)
    ensures Said(says, items + more) == Said(says, items) + Said(says, more)
  {
    if items == [] {
      assert items + more == more;
    } else {
      assert (items + more)[1..] == items[1..] + more;
      SaidMore(says, items[1..], more);
    }
  }

  lemma SaidOne(says: Argument -> Option<string>, items: seq<Argument>, a: Argument)
    ensures Said(says, items + [a]) == Said(says, items) + match says(a) case None => [] case Some(v) => [v]
  {
    SaidMore(says, items, [a]);
    assert [a][1..] == [];
  }

  lemma JoinedOne(cwd: string, paths: seq<string>, p: string)
    ensures Joined(cwd, paths + [p]) == Joined(cwd, paths) + [PathJoin(cwd, p)]
  {
  }

  lemma AnyOne(p: Argument -> bool, items: seq<Argument>, a: Argument)
    ensures (exists x <- items + [a] :: p(x)) <==> (exists x <- items :: p(x)) || p(a)
  {
    assert a in items + [a];
    assert forall x <- items :: x in items + [a];
  }

  function Latest(before: Option<string>, said: Option<string>): Option<string> {
    if said.Some? then said else before
  }

  function Listed(said: Option<string>): seq<string> {
    match said case None => [] case Some(v) => [v]
  }

  function Resolved(cwd: string, said: Option<string>): seq<string> {
    match said case None => [] case Some(p) => [PathJoin(cwd, p)]
  }

  /** One more argument, subject by subject. */
  function Extend(g: Gathered, a: Argument, cwd: string): Gathered {
    Gathered(
      if EmitList(a).Some? then Some(SetOf(Split(EmitList(a).value, ','))) else g.emit,
      Latest(g.input, Input(a)), Latest(g.outputDir, OutputDir(a)), Latest(g.crateName, NameOfCrate(a)),
      g.rlib || MakesRlib(a), g.staticlib || MakesStaticlib(a), Latest(g.extraFilename, ExtraFilename(a)),
      g.externs + Listed(ExternPath(a)), g.crateLinkPaths + Resolved(cwd, CratePath(a)),
      g.staticLibNames + Listed(StaticLib(a)), g.staticLinkPaths + Resolved(cwd, NativePath(a)),
      g.hasJson || AsksJson(a), Latest(g.profile, Profile(a)), Latest(g.targetJson, JsonTarget(a)))
  }

  lemma LastOne(says: Argument -> Option<string>, items: seq<Argument>, a: Argument)
    ensures Last(Said(says, items + [a])) == Latest(Last(Said(says, items)), says(a))
  {
    SaidOne(says, items, a);
  }

  lemma ResolvedOne(says: Argument -> Option<string>, items: seq<Argument>, a: Argument, cwd: string)
    ensures Joined(cwd, Said(says, items + [a])) == Joined(cwd, Said(says, items)) + Resolved(cwd, says(a))
  {
    SaidOne(says, items, a);
    if says(a).Some? { JoinedOne(cwd, Said(says, items), says(a).value); }
  }

  lemma MeaningMore(items: seq<Argument>, a: Argument, cwd: string)
    ensures Meaning(items + [a], cwd) == Extend(Meaning(items, cwd), a, cwd)
  {
    LastOne(EmitList, items, a);
    LastOne(Input, items, a);
    LastOne(OutputDir, items, a);
    LastOne(NameOfCrate, items, a);
    LastOne(ExtraFilename, items, a);
    LastOne(Profile, items, a);
    LastOne(JsonTarget, items, a);
    SaidOne(ExternPath, items, a);
    SaidOne(StaticLib, items, a);
    ResolvedOne(CratePath, items, a, cwd);
    ResolvedOne(NativePath, items, a, cwd);
    AnyOne(MakesRlib, items, a);
    AnyOne(MakesStaticlib, items, a);
    AnyOne(AsksJson, items, a);
  }

  predicate Repeats(g: Gathered, a: Argument) {
    (Input(a).Some? && g.input.Some?) || (EmitList(a).Some? && g.emit.Some?)
  }

  lemma NothingAdded(g: Gathered)
    ensures g.externs + [] == g.externs && g.crateLinkPaths + [] == g.crateLinkPaths
    ensures g.staticLibNames + [] == g.staticLibNames && g.staticLinkPaths + [] == g.staticLinkPaths
  {
  }

  lemma VisitExtendsLists(g: Gathered, a: Argument, cwd: string)
    requires DataOf(a).Some? && (a.data.LinkPath? || a.data.LinkLibrary? || a.data.Extern?)
    ensures Visit(g, a, cwd) == Ok(Extend(g, a, cwd))
  {
    NothingAdded(g);
  }

  lemma VisitExtendsCodeGen(g: Gathered, a: Argument, cwd: string)
    requires DataOf(a).Some? && a.data.CodeGen?
    ensures Visit(g, a, cwd).Ok? <==> Harmless(a)
    ensures Visit(g, a, cwd).Ok? ==> Visit(g, a, cwd).value == Extend(g, a, cwd)
  {
    NothingAdded(g);
  }

  lemma VisitExtendsRest(g: Gathered, a: Argument, cwd: string)
    requires DataOf(a).Some? ==> !(a.data.LinkPath? || a.data.LinkLibrary? || a.data.Extern? || a.data.CodeGen?)
    ensures Visit(g, a, cwd).Ok? <==> Harmless(a) && !Repeats(g, a)
    ensures Visit(g, a, cwd).Ok? ==> Visit(g, a, cwd).value == Extend(g, a, cwd)
  {
    NothingAdded(g);
  }

  lemma VisitExtends(g: Gathered, a: Argument, cwd: string)
    ensures Visit(g, a, cwd).Ok? <==> Harmless(a) && !Repeats(g, a)
    ensures Visit(g, a, cwd).Ok? ==> Visit(g, a, cwd).value == Extend(g, a, cwd)
  {
    match DataOf(a)
    case Some(LinkPath(_, _)) => VisitExtendsLists(g, a, cwd);
    case Some(LinkLibrary(_, _)) => VisitExtendsLists(g, a, cwd);
    case Some(Extern(_, _)) => VisitExtendsLists(g, a, cwd);
    case Some(CodeGen(_, _)) => VisitExtendsCodeGen(g, a, cwd);
    case _ => VisitExtendsRest(g, a, cwd);
  }

  lemma VisitRefuses(before: seq<Argument>, a: Argument, cwd: string)
    requires Acceptable(before) && (!Harmless(a) || Repeats(Meaning(before, cwd), a))
    ensures Visit(Meaning(before, cwd), a, cwd) == Err(Refusal(before, a))
  {
  }

  lemma AcceptableMore(items: seq<Argument>, a: Argument, cwd: string)
    requires Acceptable(items)
    ensures Acceptable(items + [a]) <==> Harmless(a) && !Repeats(Meaning(items, cwd), a)
  {
    SaidOne(Input, items, a);
    SaidOne(EmitList, items, a);
    assert a in items + [a];
    assert forall x <- items + [a] :: x in items || x == a;
  }

  lemma {:induction false} WalkMore(g: Gathered, items: seq<Argument>, a: Argument, cwd: string)
    ensures var before := Walk(g, items, cwd);
            Walk(g, items + [a], cwd) == if before.Err? then before else Visit(before.value, a, cwd)
    decreases |items|
  {
    if items == [] {
      WalkFirst(g, a, [], cwd);
      assert [a] + [] == [a] && items + [a] == [a];
    } else {
      assert (items + [a])[1..] == items[1..] + [a];
      var step := Visit(g, items[0], cwd);
      if step.Ok? { WalkMore(step.value, items[1..], a, cwd); }
    }
  }

  /** `k` is where the first reason to give up is. */
  predicate FirstReason(items: seq<Argument>, k: int) {
    0 <= k < |items| && Acceptable(items[..k]) && !Acceptable(items[..k + 1])
  }

  lemma WalkOnWell(before: seq<Argument>, a: Argument, cwd: string)
    requires Acceptable(before) && Walk(START, before, cwd) == Ok(Meaning(before, cwd))
    ensures var items := before + [a];
            if Acceptable(items) then Walk(START, items, cwd) == Ok(Meaning(items, cwd))
            else Walk(START, items, cwd) == Err(Refusal(before, a))
  {
    WalkMore(START, before, a, cwd);
    AcceptableMore(before, a, cwd);
    VisitExtends(Meaning(before, cwd), a, cwd);
    if Acceptable(before + [a]) { MeaningMore(before, a, cwd); } else { VisitRefuses(before, a, cwd); }
  }

  /** A reason to give up is never taken back, so there is one first reason. */
  lemma NotAcceptableAgain(items: seq<Argument>, k: int)
    requires 0 <= k <= |items| && !Acceptable(items[..k])
    ensures !Acceptable(items)
  {
    assert items == items[..k] + items[k..];
    SaidMore(Input, items[..k], items[k..]);
    SaidMore(EmitList, items[..k], items[k..]);
  }

  lemma WalkMeaning(items: seq<Argument>, cwd: string)
    requires Acceptable(items)
    ensures Walk(START, items, cwd) == Ok(Meaning(items, cwd))
    decreases |items|
  {
    if items == [] {
      assert Joined(cwd, []) == [];
    } else {
      var n := |items| - 1;
      assert items == items[..n] + [items[n]];
      if !Acceptable(items[..n]) { NotAcceptableAgain(items, n); }
      WalkMeaning(items[..n], cwd);
      WalkOnWell(items[..n], items[n], cwd);
    }
  }

  lemma {:induction false} WalkRefuses(items: seq<Argument>, cwd: string) returns (k: int)
    requires !Acceptable(items)
    ensures FirstReason(items, k) && Walk(START, items, cwd) == Err(Refusal(items[..k], items[k]))
    decreases |items|
  {
    if items == [] { assert false; }
    var n := |items| - 1;
    var before, a := items[..n], items[n];
    assert items == before + [a] && items[..n + 1] == items;
    if Acceptable(before) {
      WalkMeaning(before, cwd);
      WalkOnWell(before, a, cwd);
      k := n;
    } else {
      k := WalkRefuses(before, cwd);
      assert items[..k] == before[..k] && items[..k + 1] == before[..k + 1];
      WalkMore(START, before, a, cwd);
    }
  }

  /** What is needed of everything read, once nothing is a reason to give up. */
  predicate Complete(items: seq<Argument>) {
    && Said(Input, items) != [] && Said(OutputDir, items) != [] && Said(NameOfCrate, items) != []
    && Said(EmitList, items) != []
    && (var emit := SetOf(Split(Said(EmitList, items)[0], ','));
        emit <= ALLOWED_EMIT && ("link" in emit || "metadata" in emit))
    && exists a <- items :: MakesRlib(a) || MakesStaticlib(a)
  }

  lemma ConcludesExactlyWhen(items: seq<Argument>, env: Env)
    requires Acceptable(items)
    ensures forall args, color :: Conclude(Meaning(items, env.cwd), args, color, env).Parsed? <==> Complete(items)
  {
    var said := Said(EmitList, items);
    if said != [] {
      assert Split(said[0], ',')[0] in SetOf(Split(said[0], ','));
    }
  }

  /** With no reason to give up: an argument that cannot be read stops it, else
      the outcome is that of what was said on each subject. */
  lemma AcceptableMeans(t: Table, args: seq<string>, env: Env)
    requires Acceptable(Discount(ItemsOf(t, args, env.probe).items))
    ensures var all := ItemsOf(t, args, env.probe);
            var items := Discount(all.items);
            ParseOf(t, args, env)
            == if all.error.Some? then CannotCache("argument parse", BadArgument(all.error.value))
               else Conclude(Meaning(items, env.cwd), WithoutColors(items), LastColor(Auto, items), env)
  {
    var items := Discount(ItemsOf(t, args, env.probe).items);
    WalkMeaning(items, env.cwd);
    assert [] + WithoutColors(items) == WithoutColors(items);
  }

  /** Exactly which command lines are parsed: every argument can be read and
      none forbids caching; there is one input, one `--emit` among the allowed
      modes with `link` or `metadata`, an output directory, a crate name, and
      only rlib or staticlib crate types, at least one. */
  lemma ParsedExactlyWhen(t: Table, args: seq<string>, env: Env)
    ensures var all := ItemsOf(t, args, env.probe);
            var items := Discount(all.items);
            ParseOf(t, args, env).Parsed? <==> all.error.None? && Acceptable(items) && Complete(items)
  {
    var items := Discount(ItemsOf(t, args, env.probe).items);
    if Acceptable(items) {
      AcceptableMeans(t, args, env);
      ConcludesExactlyWhen(items, env);
    } else {
      var k := WalkRefuses(items, env.cwd);
    }
  }

  /** All that is asked for is given, but what is emitted needs no compiler. */
  predicate NothingToCompile(items: seq<Argument>) {
    && Said(Input, items) != [] && Said(OutputDir, items) != [] && Said(NameOfCrate, items) != [] && Said(EmitList, items) != []
    && (var emit := Split(Said(EmitList, items)[0], ','); "link" !in emit && "metadata" !in emit)
  }

  predicate ForSomethingElse(a: Argument) {
    match DataOf(a)
    case Some(NotCompilationFlag) => true
    case Some(NotCompilation(_)) => true
    case _ => false
  }

  /** Exactly when a command line is passed over without a word: the first reason
      to give up is a flag that makes it no compilation, or there is none and
      neither `link` nor `metadata` is emitted. */
  lemma PassedOverExactlyWhen(t: Table, args: seq<string>, env: Env)
    ensures var all := ItemsOf(t, args, env.probe);
            var items := Discount(all.items);
            ParseOf(t, args, env).NotACompilation? <==>
              || (exists k :: FirstReason(items, k) && ForSomethingElse(items[k]))
              || (all.error.None? && Acceptable(items) && NothingToCompile(items))
  {
    var all := ItemsOf(t, args, env.probe);
    var items := Discount(all.items);
    if Acceptable(items) {
      AcceptableMeans(t, args, env);
      if all.error.None? { ConcludedOtherwise(items, WithoutColors(items), LastColor(Auto, items), env); }
      forall k | FirstReason(items, k) ensures false { NotAcceptableAgain(items, k + 1); }
    } else {
      var k := WalkRefuses(items, env.cwd);
      FirstReasonDecides(t, args, env, k);
      RefusalSaysWhy(items[..k], items[k]);
      forall j | FirstReason(items, j) ensures j == k { OneFirstReason(items, j, k); }
    }
  }

  lemma RefusalSaysWhy(before: seq<Argument>, a: Argument)
    ensures Refusal(before, a).NotACompilation? <==> ForSomethingElse(a)
  {
  }

  lemma OneFirstReason(items: seq<Argument>, j: int, k: int)
    requires FirstReason(items, j) && FirstReason(items, k)
    ensures j == k
  {
    NotBefore(items, j, k);
    NotBefore(items, k, j);
  }

  /** With no reason to give up, the first thing that is missing is named. */
  lemma ConcludedOtherwise(items: seq<Argument>, args: seq<Argument>, color: ColorMode, env: Env)
    requires Acceptable(items)
    ensures var outcome := Conclude(Meaning(items, env.cwd), args, color, env);
            if Said(Input, items) == [] then outcome == CannotCache("missing input", Nothing)
            else if Said(OutputDir, items) == [] then outcome == CannotCache("missing output_dir", Nothing)
            else if Said(EmitList, items) == [] then outcome == CannotCache("missing emit", Nothing)
            else if Said(NameOfCrate, items) == [] then outcome == CannotCache("missing crate_name", Nothing)
            else if NothingToCompile(items) then outcome == NotACompilation
            else if forall a <- items :: !MakesRlib(a) && !MakesStaticlib(a) then outcome == CannotCache("crate-type", NoCrateType)
            else outcome.Parsed? || outcome == CannotCache("unsupported --emit", Nothing)
  {
    var g := Meaning(items, env.cwd);
    var said := Said(EmitList, items);
    if said != [] { ModesOf(Split(said[0], ',')); }
    if g.input.Some? && g.outputDir.Some? && g.emit.Some? && g.crateName.Some? { ConcludedGiven(g, args, color, env); }
  }

  lemma ModesOf(modes: seq<string>)
    requires modes != []
    ensures SetOf(modes) != {} && forall mode :: mode in SetOf(modes) <==> mode in modes
  {
    assert modes[0] in SetOf(modes);
  }

  lemma ConcludedGiven(g: Gathered, args: seq<Argument>, color: ColorMode, env: Env)
    requires g.input.Some? && g.outputDir.Some? && g.emit.Some? && g.crateName.Some? && g.emit.value != {}
    ensures var outcome, emit := Conclude(g, args, color, env), g.emit.value;
            if "link" !in emit && "metadata" !in emit then outcome == NotACompilation
            else if !g.rlib && !g.staticlib then outcome == CannotCache("crate-type", NoCrateType)
            else outcome.Parsed? || outcome == CannotCache("unsupported --emit", Nothing)
  {
  }

  lemma NotBefore(items: seq<Argument>, j: int, k: int)
    requires FirstReason(items, j) && FirstReason(items, k)
    ensures j >= k
  {
    if j < k {
      assert items[..k][..j + 1] == items[..j + 1];
      NotAcceptableAgain(items[..k], j + 1);
    }
  }

  /** The first reason to give up decides what is returned, whatever else is on
      the command line; a later argument that cannot be read does not matter. */
  lemma FirstReasonDecides(t: Table, args: seq<string>, env: Env, k: int)
    requires FirstReason(Discount(ItemsOf(t, args, env.probe).items), k)
    ensures var items := Discount(ItemsOf(t, args, env.probe).items);
            ParseOf(t, args, env) == Refusal(items[..k], items[k])
  {
    var items := Discount(ItemsOf(t, args, env.probe).items);
    NotAcceptableAgain(items, k + 1);
    var j := WalkRefuses(items, env.cwd);
    OneFirstReason(items, j, k);
  }

  function ColorValue(a: Argument): Option<string> {
    if IsColor(a) then Some(a.data.value) else None
  }

  lemma {:induction false} LastColorSaid(mode: ColorMode, items: seq<Argument>)
    ensures LastColor(mode, items)
            == match Last(Said(ColorValue, items)) case None => mode case Some(v) => ColorModeOf(v)
    decreases |items|
  {
    if items != [] {
      LastColorSaid(if IsColor(items[0]) then ColorModeOf(items[0].data.value) else mode, items[1..]);
    }
  }

  /** The one input and `--emit`, and the last word on each other subject. */
  ghost predicate SaysOnce(p: ParsedArguments, items: seq<Argument>) {
    && Said(Input, items) == [p.input] && Last(Said(OutputDir, items)) == Some(p.outputDir)
    && Last(Said(NameOfCrate, items)) == Some(p.crateName)
    && |Said(EmitList, items)| == 1 && p.emit == SetOf(Split(Said(EmitList, items)[0], ','))
    && p.targetJson == Last(Said(JsonTarget, items))
    && p.profile == (if "link" in p.emit then Last(Said(Profile, items)) else None)
    && p.depInfo == (if "dep-info" !in p.emit then None
                     else match Last(Said(ExtraFilename, items))
                       case None => Some(p.crateName + ".d")
                       case Some(extra) => Some(p.crateName + extra + ".d"))
  }

  /** What anyone asked for, and the lists. */
  ghost predicate SaysAnywhere(p: ParsedArguments, items: seq<Argument>, env: Env) {
    && (p.rlib <==> exists a <- items :: MakesRlib(a)) && (p.staticlib <==> exists a <- items :: MakesStaticlib(a))
    && (p.hasJson <==> exists a <- items :: AsksJson(a))
    && multiset(p.externs) == multiset(Said(ExternPath, items)) && SortedBy(PathAtMost, p.externs)
    && p.crateLinkPaths == Joined(env.cwd, Said(CratePath, items))
    && p.staticlibs == FindLibs(Said(StaticLib, items), Joined(env.cwd, Said(NativePath, items)), env.exists_)
  }

  /** Each field in terms of what was gathered. */
  ghost predicate Takes(p: ParsedArguments, g: Gathered, env: Env) {
    && g.input == Some(p.input) && g.outputDir == Some(p.outputDir) && g.crateName == Some(p.crateName)
    && g.emit == Some(p.emit) && p.rlib == g.rlib && p.staticlib == g.staticlib
    && p.externs == SortPaths(g.externs) && p.crateLinkPaths == g.crateLinkPaths
    && p.staticlibs == FindLibs(g.staticLibNames, g.staticLinkPaths, env.exists_)
    && p.hasJson == g.hasJson && p.targetJson == g.targetJson
    && p.profile == (if "link" in p.emit then g.profile else None)
    && p.depInfo == (if "dep-info" !in p.emit then None
                     else match g.extraFilename
                       case None => Some(p.crateName + ".d")
                       case Some(extra) => Some(p.crateName + extra + ".d"))
  }

  lemma ConcludedTakes(g: Gathered, args: seq<Argument>, color: ColorMode, env: Env)
    requires Conclude(g, args, color, env).Parsed?
    ensures Takes(Conclude(g, args, color, env).parsed, g, env) && Conclude(g, args, color, env).parsed.colorMode == color
  {
  }

  lemma MeaningSaysOnce(p: ParsedArguments, items: seq<Argument>, env: Env)
    requires Acceptable(items) && Takes(p, Meaning(items, env.cwd), env)
    ensures SaysOnce(p, items)
  {
    OnlyOne(Said(Input, items), p.input);
  }

  lemma MeaningSaysAnywhere(p: ParsedArguments, items: seq<Argument>, env: Env)
    requires Takes(p, Meaning(items, env.cwd), env)
    ensures SaysAnywhere(p, items, env)
  {
    ExternsSorted(p.externs, items);
  }

  lemma ExternsSorted(externs: seq<string>, items: seq<Argument>)
    requires externs == SortPaths(Said(ExternPath, items))
    ensures multiset(externs) == multiset(Said(ExternPath, items)) && SortedBy(PathAtMost, externs)
  {
    SortPathsSorts(Said(ExternPath, items));
  }

  lemma OnlyOne(said: seq<string>, v: string)
    requires |said| <= 1 && Last(said) == Some(v)
    ensures said == [v]
  {
  }

  /** Each field of a parsed command line, in terms of what its arguments say. */
  lemma ParsedSays(t: Table, args: seq<string>, env: Env)
    requires ParseOf(t, args, env).Parsed?
    ensures var p, items := ParseOf(t, args, env).parsed, Discount(ItemsOf(t, args, env.probe).items);
            && SaysOnce(p, items) && SaysAnywhere(p, items, env)
            && p.colorMode == match Last(Said(ColorValue, items)) case None => Auto case Some(v) => ColorModeOf(v)
  {
    var items := Discount(ItemsOf(t, args, env.probe).items);
    ParsedExactlyWhen(t, args, env);
    AcceptableMeans(t, args, env);
    ConcludedTakes(Meaning(items, env.cwd), WithoutColors(items), LastColor(Auto, items), env);
    MeaningSaysOnce(ParseOf(t, args, env).parsed, items, env);
    MeaningSaysAnywhere(ParseOf(t, args, env).parsed, items, env);
    LastColorSaid(Auto, items);
  }
}
