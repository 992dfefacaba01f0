/** Which command lines are parsed, and to what, in terms of the strings on them. */
module WordMeaning {
  import opened Wrappers
  import opened Strings
  import opened Paths
  import opened ArgTable
  import opened RustcTable
  import opened RustcArgs
  import opened Parse
  import opened ParseMeaning
  import opened CommandWords
  import opened RustcWords

  function ValueOf(kind: Kind, w: Word): Option<string> {
    if w.Valued? && w.kind == kind then Some(w.value) else None
  }

  /** What `v` gives for `key`. */
  function Behind(key: string, v: string): Option<string> {
    if key + "=" <= v then Some(v[|key| + 1..]) else None
  }

  // What a word says on each subject, if anything.
  function TextIn(w: Word): Option<string> {
    if w.Text? then Some(w.text) else None
  }

  function EmitIn(w: Word): Option<string> {
    ValueOf(Kind.Emit, w)
  }

  function OutDirIn(w: Word): Option<string> {
    ValueOf(Kind.OutDir, w)
  }

  function NameIn(w: Word): Option<string> {
    ValueOf(Kind.CrateName, w)
  }

  function ColorIn(w: Word): Option<string> {
    ValueOf(Kind.Color, w)
  }

  function ExternIn(w: Word): Option<string> {
    match ValueOf(Kind.Extern, w) case Some(v) => SplitOnce(v, '=').1 case None => None
  }

  function ExtraIn(w: Word): Option<string> {
    match ValueOf(Kind.CodeGen, w) case Some(v) => Behind("extra-filename", v) case None => None
  }

  function ProfileIn(w: Word): Option<string> {
    match ValueOf(Kind.CodeGen, w) case Some(v) => Behind("profile-use", v) case None => None
  }

  function StaticIn(w: Word): Option<string> {
    match ValueOf(Kind.LinkLibrary, w) case Some(v) => Behind("static", v) case None => None
  }

  /** A path without a kind is for everything. */
  function CrateDirIn(w: Word): Option<string> {
    match ValueOf(Kind.LinkPath, w)
    case None => None
    case Some(v) =>
      if '=' !in v then Some(v)
      else if Behind("crate", v).Some? then Behind("crate", v)
      else if Behind("dependency", v).Some? then Behind("dependency", v)
      else Behind("all", v)
  }

  function NativeDirIn(w: Word): Option<string> {
    match ValueOf(Kind.LinkPath, w)
    case None => None
    case Some(v) => if '=' !in v then Some(v) else if Behind("native", v).Some? then Behind("native", v) else Behind("all", v)
  }

  function JsonTargetOf(probe: Probe, w: Word): Option<string> {
    if w.Valued? && w.kind.Target? && probe(w.value).IsPath? then Some(w.value) else None
  }

  function JsonTargetIn(probe: Probe): Word -> Option<string> {
    w => JsonTargetOf(probe, w)
  }

  predicate MakesRlibIn(w: Word) {
    w.Valued? && w.kind.CrateType? && ("lib" in Split(w.value, ',') || "rlib" in Split(w.value, ','))
  }

  predicate MakesStaticlibIn(w: Word) {
    w.Valued? && w.kind.CrateType? && "staticlib" in Split(w.value, ',')
  }

  predicate LibraryType(part: string) {
    part == "lib" || part == "rlib" || part == "staticlib"
  }

  predicate AsksJsonIn(w: Word) {
    w.Valued? && w.kind.Json?
  }

  /** No reason to give up: a crate type is a library's, code generation is not
      incremental, the target is not in doubt. */
  predicate HarmlessIn(w: Word, probe: Probe) {
    match w
    case Text(_) => true
    case Unknown(_) => true
    case Bare(_, _) => false
    case Dangling(_) => false
    case Valued(_, kind, v) =>
      match kind
      case NotCompilation => false
      case TooHardPath => false
      case CrateType => forall part <- Split(v, ',') :: LibraryType(part)
      case CodeGen => v != "incremental" && Behind("incremental", v).None? && v != "extra-filename"
      case Target => !probe(v).IsUnsure?
      case _ => true
  }

  /** Everything said on one subject, in order. */
  function Told(says: Word -> Option<string>, words: seq<Word>): seq<string> {
    if words == [] then []
    else (match says(words[0]) case None => [] case Some(v) => [v]) + Told(says, words[1..])
  }

  /** The words of a command line, a leading `rustc` aside. */
  function Words(args: seq<string>): seq<Word> {
    var words := WordsOf(KindNamed, BareNamed, args);
    if words != [] && words[0] == Text("rustc") then words[1..] else words
  }

  // How values are read
  lemma KeyOf(v: string, key: string)
    requires '=' !in key
    ensures SplitOnce(v, '=').1.Some? && SplitOnce(v, '=').0 == key <==> Behind(key, v).Some?
    ensures Behind(key, v).Some? ==> SplitOnce(v, '=') == (key, Behind(key, v))
    ensures SplitOnce(v, '=').1.None? <==> '=' !in v
    ensures SplitOnce(v, '=').1.None? ==> SplitOnce(v, '=').0 == v
  {
    SplitOnceParts(v, '=');
    var (k, rest) := SplitOnce(v, '=');
    if key + "=" <= v { KeyInFront(v, key); }
    if rest.Some? && k == key { assert key + ['='] <= v && key + "=" == key + ['=']; }
  }

  lemma KeyInFront(v: string, key: string)
    requires '=' !in key && key + "=" <= v
    ensures SplitOnce(v, '=') == (key, Some(v[|key| + 1..])) && '=' in v
  {
    var rest := v[|key| + 1..];
    assert v == key + ['='] + rest;
    SplitOnceJoin(key, '=', rest);
    assert v[|key|] == '=';
  }

  lemma {:induction false} OtherTypesIn(types: seq<string>, p: string)
    ensures p in OtherTypes(types) <==> p in types && p != "lib" && p != "rlib" && p != "staticlib"
  {
    if types != [] {
      OtherTypesIn(types[1..], p);
      assert types == [types[0]] + types[1..];
    }
  }

  lemma {:induction false} UniqueIn(s: seq<string>, p: string)
    ensures p in Unique(s) <==> p in s
  {
    if |s| >= 2 {
      UniqueIn(s[1..], p);
      assert s == [s[0]] + s[1..];
    }
  }

  /** What `--crate-type` says: `lib` and `rlib` are one, `staticlib` is known, and
      every other part is kept. */
  lemma CrateTypesRead(v: string, probe: Probe, p: string)
    ensures Create(Kind.CrateType, v, probe).Ok? && Create(Kind.CrateType, v, probe).value.CrateType?
    ensures var types, parts := Create(Kind.CrateType, v, probe).value.types, Split(v, ',');
            && (types.rlib <==> "lib" in parts || "rlib" in parts)
            && (types.staticlib <==> "staticlib" in parts)
            && (p in types.others <==> p in parts && p != "lib" && p != "rlib" && p != "staticlib")
  {
    OthersAre(Split(v, ','), p);
    var types := CrateTypesOf(Split(v, ','));
    assert Create(Kind.CrateType, v, probe) == Ok(ArgData.CrateType(types));
  }

  lemma OthersAre(parts: seq<string>, p: string)
    ensures p in CrateTypesOf(parts).others <==> p in parts && p != "lib" && p != "rlib" && p != "staticlib"
    ensures CrateTypesOf(parts).rlib <==> "lib" in parts || "rlib" in parts
  {
    OtherTypesIn(parts, p);
    SortSorts(OtherTypes(parts));
    assert p in OtherTypes(parts) <==> p in multiset(OtherTypes(parts));
    assert p in Sort(OtherTypes(parts)) <==> p in multiset(Sort(OtherTypes(parts)));
    UniqueIn(Sort(OtherTypes(parts)), p);
    assert forall ty: string :: IsRlib(ty) <==> ty == "lib" || ty == "rlib";
  }

  lemma NoOthers(v: string, probe: Probe)
    ensures Create(Kind.CrateType, v, probe).value.types.others == []
            <==> forall part <- Split(v, ',') :: LibraryType(part)
  {
    var others := Create(Kind.CrateType, v, probe).value.types.others;
    forall part: string ensures part in others <==> part in Split(v, ',') && !LibraryType(part) {
      CrateTypesRead(v, probe, part);
    }
    if others != [] { assert others[0] in others; }
  }

  // An argument says what its word says.
  lemma LibrarySaysAlike(a: Argument, w: Word, probe: Probe)
    requires Holds(a, w, probe)
    ensures StaticLib(a) == StaticIn(w)
  {
    if w.Valued? && w.kind.LinkLibrary? { KeyOf(w.value, "static"); }
  }

  lemma CrateDirSaysAlike(a: Argument, w: Word, probe: Probe)
    requires Holds(a, w, probe)
    ensures CratePath(a) == CrateDirIn(w)
  {
    if w.Valued? && w.kind.LinkPath? {
      KeyOf(w.value, "crate");
      KeyOf(w.value, "dependency");
      KeyOf(w.value, "all");
    }
  }

  lemma NativeDirSaysAlike(a: Argument, w: Word, probe: Probe)
    requires Holds(a, w, probe)
    ensures NativePath(a) == NativeDirIn(w)
  {
    if w.Valued? && w.kind.LinkPath? {
      KeyOf(w.value, "native");
      KeyOf(w.value, "all");
    }
  }

  /** A code generation option is `key` exactly if its word gives something for
      `key`, or is `key` alone. */
  lemma CodeGenKey(a: Argument, v: string, key: string, probe: Probe)
    requires a.WithValue? && Create(Kind.CodeGen, v, probe) == Ok(a.data) && '=' !in key
    ensures a.data.CodeGen?
    ensures Behind(key, v) == if a.data.opt == key then a.data.setting else None
    ensures a.data.opt == key <==> v == key || Behind(key, v).Some?
    ensures a.data.opt == key && a.data.setting.None? <==> v == key
  {
    KeyOf(v, key);
    if key + "=" <= v { assert v[|key|] == '='; }
  }

  lemma CodeGenSaysAlike(a: Argument, w: Word, probe: Probe)
    requires Holds(a, w, probe)
    ensures ExtraFilename(a) == ExtraIn(w) && Profile(a) == ProfileIn(w)
  {
    if w.Valued? && w.kind.CodeGen? {
      CodeGenKey(a, w.value, "extra-filename", probe);
      CodeGenKey(a, w.value, "profile-use", probe);
    }
  }

  lemma CodeGenHarmlessAlike(a: Argument, w: Word, probe: Probe)
    requires Holds(a, w, probe) && w.Valued? && w.kind.CodeGen?
    ensures Harmless(a) <==> HarmlessIn(w, probe)
  {
    CodeGenKey(a, w.value, "extra-filename", probe);
    CodeGenKey(a, w.value, "incremental", probe);
  }

  lemma SaysAlike(a: Argument, w: Word, probe: Probe)
    requires Holds(a, w, probe)
    ensures Input(a) == TextIn(w) && EmitList(a) == EmitIn(w) && OutputDir(a) == OutDirIn(w) && NameOfCrate(a) == NameIn(w)
    ensures ExternPath(a) == ExternIn(w) && ColorValue(a) == ColorIn(w)
  {
  }

  lemma TargetSaysAlike(a: Argument, w: Word, probe: Probe)
    requires Holds(a, w, probe)
    ensures JsonTarget(a) == JsonTargetOf(probe, w) == JsonTargetIn(probe)(w)
  {
    if w.Valued? && w.kind.Target? { assert a.data == ArgData.Target(probe(w.value), w.value); }
  }

  lemma TypesSayAlike(a: Argument, w: Word, probe: Probe)
    requires Holds(a, w, probe)
    ensures (MakesRlib(a) <==> MakesRlibIn(w)) && (MakesStaticlib(a) <==> MakesStaticlibIn(w))
    ensures DataOf(a).Some? && a.data.CrateType? ==> (Harmless(a) <==> HarmlessIn(w, probe))
  {
    if w.Valued? && w.kind.CrateType? {
      CrateTypesRead(w.value, probe, "");
      NoOthers(w.value, probe);
    }
  }

  lemma HarmlessAlike(a: Argument, w: Word, probe: Probe)
    requires Holds(a, w, probe)
    ensures Harmless(a) <==> HarmlessIn(w, probe)
  {
    if w.Valued? && w.kind.CodeGen? { CodeGenHarmlessAlike(a, w, probe); } else { TypesSayAlike(a, w, probe); }
  }

  predicate AllHeld(items: seq<Argument>, words: seq<Word>, probe: Probe) {
    |items| == |words| && forall i | 0 <= i < |items| :: Holds(items[i], words[i], probe)
  }

  lemma {:induction false} SaidIsTold(
      says: Argument -> Option<string>, told: Word -> Option<string>, items: seq<Argument>, words: seq<Word>, probe: Probe)
    requires AllHeld(items, words, probe) && forall a, w | Holds(a, w, probe) :: says(a) == told(w)
    ensures Said(says, items) == Told(told, words)
  {
    if items != [] {
      assert Holds(items[0], words[0], probe);
      assert AllHeld(items[1..], words[1..], probe);
      SaidIsTold(says, told, items[1..], words[1..], probe);
    }
  }

  lemma SubjectsTold(items: seq<Argument>, words: seq<Word>, probe: Probe)
    requires AllHeld(items, words, probe)
    ensures Said(Input, items) == Told(TextIn, words) && Said(EmitList, items) == Told(EmitIn, words)
    ensures Said(OutputDir, items) == Told(OutDirIn, words) && Said(NameOfCrate, items) == Told(NameIn, words)
    ensures Said(ExternPath, items) == Told(ExternIn, words) && Said(JsonTarget, items) == Told(JsonTargetIn(probe), words)
    ensures Said(ColorValue, items) == Told(ColorIn, words)
  {
    forall a, w | Holds(a, w, probe)
      ensures Input(a) == TextIn(w) && EmitList(a) == EmitIn(w) && OutputDir(a) == OutDirIn(w) && NameOfCrate(a) == NameIn(w)
      ensures ExternPath(a) == ExternIn(w) && JsonTarget(a) == JsonTargetIn(probe)(w) && ColorValue(a) == ColorIn(w)
    {
      SaysAlike(a, w, probe);
      TargetSaysAlike(a, w, probe);
    }
    SaidIsTold(Input, TextIn, items, words, probe);
    SaidIsTold(EmitList, EmitIn, items, words, probe);
    SaidIsTold(OutputDir, OutDirIn, items, words, probe);
    SaidIsTold(NameOfCrate, NameIn, items, words, probe);
    SaidIsTold(ExternPath, ExternIn, items, words, probe);
    SaidIsTold(JsonTarget, JsonTargetIn(probe), items, words, probe);
    SaidIsTold(ColorValue, ColorIn, items, words, probe);
  }

  lemma DetailsTold(items: seq<Argument>, words: seq<Word>, probe: Probe)
    requires AllHeld(items, words, probe)
    ensures Said(StaticLib, items) == Told(StaticIn, words) && Said(CratePath, items) == Told(CrateDirIn, words)
    ensures Said(NativePath, items) == Told(NativeDirIn, words)
    ensures Said(ExtraFilename, items) == Told(ExtraIn, words) && Said(Profile, items) == Told(ProfileIn, words)
  {
    forall a, w | Holds(a, w, probe)
      ensures StaticLib(a) == StaticIn(w) && CratePath(a) == CrateDirIn(w) && NativePath(a) == NativeDirIn(w)
      ensures ExtraFilename(a) == ExtraIn(w) && Profile(a) == ProfileIn(w)
    {
      LibrarySaysAlike(a, w, probe);
      CrateDirSaysAlike(a, w, probe);
      NativeDirSaysAlike(a, w, probe);
      CodeGenSaysAlike(a, w, probe);
    }
    SaidIsTold(StaticLib, StaticIn, items, words, probe);
    SaidIsTold(CratePath, CrateDirIn, items, words, probe);
    SaidIsTold(NativePath, NativeDirIn, items, words, probe);
    SaidIsTold(ExtraFilename, ExtraIn, items, words, probe);
    SaidIsTold(Profile, ProfileIn, items, words, probe);
  }

  lemma {:induction false} AnyAlike(p: Argument -> bool, q: Word -> bool, items: seq<Argument>, words: seq<Word>, probe: Probe)
    requires AllHeld(items, words, probe) && forall a, w | Holds(a, w, probe) :: p(a) == q(w)
    ensures (exists a <- items :: p(a)) <==> exists w <- words :: q(w)
  {
    if items != [] {
      assert Holds(items[0], words[0], probe);
      AnyAlike(p, q, items[1..], words[1..], probe);
      assert items == [items[0]] + items[1..] && words == [words[0]] + words[1..];
    }
  }

  lemma {:induction false} AllAlike(p: Argument -> bool, q: Word -> bool, items: seq<Argument>, words: seq<Word>, probe: Probe)
    requires AllHeld(items, words, probe) && forall a, w | Holds(a, w, probe) :: p(a) == q(w)
    ensures (forall a <- items :: p(a)) <==> forall w <- words :: q(w)
  {
    if items != [] {
      assert Holds(items[0], words[0], probe);
      AllAlike(p, q, items[1..], words[1..], probe);
      assert items == [items[0]] + items[1..] && words == [words[0]] + words[1..];
    }
  }

  lemma TypesTold(items: seq<Argument>, words: seq<Word>, probe: Probe)
    requires AllHeld(items, words, probe)
    ensures (exists a <- items :: MakesRlib(a)) <==> exists w <- words :: MakesRlibIn(w)
    ensures (exists a <- items :: MakesStaticlib(a)) <==> exists w <- words :: MakesStaticlibIn(w)
    ensures (exists a <- items :: AsksJson(a)) <==> exists w <- words :: AsksJsonIn(w)
  {
    forall a, w | Holds(a, w, probe)
      ensures (MakesRlib(a) <==> MakesRlibIn(w)) && (MakesStaticlib(a) <==> MakesStaticlibIn(w)) && (AsksJson(a) <==> AsksJsonIn(w))
    {
      TypesSayAlike(a, w, probe);
    }
    AnyAlike(AsksJson, AsksJsonIn, items, words, probe);
    AnyAlike(MakesRlib, MakesRlibIn, items, words, probe);
    AnyAlike(MakesStaticlib, MakesStaticlibIn, items, words, probe);
  }

  lemma HarmTold(items: seq<Argument>, words: seq<Word>, probe: Probe)
    requires AllHeld(items, words, probe)
    ensures (forall a <- items :: Harmless(a)) <==> forall w <- words :: HarmlessIn(w, probe)
  {
    forall a, w | Holds(a, w, probe) ensures Harmless(a) <==> HarmlessIn(w, probe) { HarmlessAlike(a, w, probe); }
    var harmless := (w: Word) => HarmlessIn(w, probe);
    AllAlike(Harmless, harmless, items, words, probe);
    assert forall w :: harmless(w) == HarmlessIn(w, probe);
  }

  /** All of `words` can be read: no flag lacks its value, no extern its path. */
  predicate AllReadable(words: seq<Word>) {
    forall w <- words :: CanBeRead(w)
  }

  lemma WordsHeld(args: seq<string>, probe: Probe)
    ensures ItemsOf(ARGS, args, probe).error == None <==> AllReadable(Words(args))
    ensures AllReadable(Words(args)) ==> AllHeld(Discount(ItemsOf(ARGS, args, probe).items), Words(args), probe)
  {
    ArgsFit();
    ItemsAreWords(ARGS, KindNamed, BareNamed, args, probe);
    AlignedDiscounted(ItemsOf(ARGS, args, probe), WordsOf(KindNamed, BareNamed, args), probe);
  }

  lemma AlignedDiscounted(all: Items, words: seq<Word>, probe: Probe)
    requires Aligned(all, words, probe)
    ensures var rest := if words != [] && words[0] == Text("rustc") then words[1..] else words;
            && (all.error == None <==> AllReadable(rest))
            && (all.error == None ==> AllHeld(Discount(all.items), rest, probe))
  {
    if words != [] {
      assert words == [words[0]] + words[1..];
      assert all.items != [] ==> Holds(all.items[0], words[0], probe);
    }
  }

  /** Exactly which command lines are parsed, read off their strings: every word
      can be read and none is a reason to give up; there is one input and one
      `--emit`, of `link`, `metadata` and `dep-info` and not of the last alone; an
      output directory and a crate name are given; a library is made. */
  lemma ParsedByWords(args: seq<string>, env: Env)
    ensures var words := Words(args);
            ParseOf(ARGS, args, env).Parsed? <==>
              && AllReadable(words) && (forall w <- words :: HarmlessIn(w, env.probe))
              && |Told(TextIn, words)| == 1 && |Told(EmitIn, words)| == 1
              && Told(OutDirIn, words) != [] && Told(NameIn, words) != []
              && (var emit := Split(Told(EmitIn, words)[0], ',');
                  && (forall mode <- emit :: Mode(mode))
                  && ("link" in emit || "metadata" in emit))
              && exists w <- words :: MakesRlibIn(w) || MakesStaticlibIn(w)
  {
    var words, items := Words(args), Discount(ItemsOf(ARGS, args, env.probe).items);
    ParsedExactlyWhen(ARGS, args, env);
    WordsHeld(args, env.probe);
    if AllReadable(words) {
      SubjectsTold(items, words, env.probe);
      TypesTold(items, words, env.probe);
      HarmTold(items, words, env.probe);
      if |Told(EmitIn, words)| == 1 { ModesAllowed(Split(Told(EmitIn, words)[0], ',')); }
    }
  }

  predicate Mode(mode: string) {
    mode == "link" || mode == "metadata" || mode == "dep-info"
  }

  lemma ModesAllowed(modes: seq<string>)
    ensures SetOf(modes) <= ALLOWED_EMIT <==> forall mode <- modes :: Mode(mode)
    ensures forall mode :: mode in SetOf(modes) <==> mode in modes
  {
    assert forall mode: string :: mode in ALLOWED_EMIT <==> Mode(mode);
    if SetOf(modes) <= ALLOWED_EMIT {
      forall mode | mode in modes ensures Mode(mode) { assert mode in SetOf(modes); }
    }
  }

  // What a parsed command line holds, read off its strings.
  ghost predicate HoldsOnce(p: ParsedArguments, words: seq<Word>, probe: Probe) {
    && Told(TextIn, words) == [p.input]
    && Last(Told(OutDirIn, words)) == Some(p.outputDir) && Last(Told(NameIn, words)) == Some(p.crateName)
    && (|Told(EmitIn, words)| == 1 && forall mode :: mode in p.emit <==> mode in Split(Told(EmitIn, words)[0], ','))
    && p.targetJson == Last(Told(JsonTargetIn(probe), words))
    && p.profile == (if "link" in p.emit then Last(Told(ProfileIn, words)) else None)
    && p.depInfo == (if "dep-info" !in p.emit then None
                     else match Last(Told(ExtraIn, words))
                       case None => Some(p.crateName + ".d")
                       case Some(extra) => Some(p.crateName + extra + ".d"))
  }

  ghost predicate HoldsAnywhere(p: ParsedArguments, words: seq<Word>, env: Env) {
    && (p.rlib <==> exists w <- words :: MakesRlibIn(w)) && (p.staticlib <==> exists w <- words :: MakesStaticlibIn(w))
    && (p.hasJson <==> exists w <- words :: AsksJsonIn(w))
    && multiset(p.externs) == multiset(Told(ExternIn, words)) && SortedBy(PathAtMost, p.externs)
    && p.crateLinkPaths == Joined(env.cwd, Told(CrateDirIn, words))
    && p.staticlibs == FindLibs(Told(StaticIn, words), Joined(env.cwd, Told(NativeDirIn, words)), env.exists_)
  }

  ghost predicate HoldsColor(mode: ColorMode, words: seq<Word>) {
    && (mode.On? <==> Last(Told(ColorIn, words)) == Some("always"))
    && (mode.Off? <==> Last(Told(ColorIn, words)) == Some("never"))
  }

  lemma ParsedHoldsWords(args: seq<string>, env: Env)
    requires ParseOf(ARGS, args, env).Parsed?
    ensures var p, words := ParseOf(ARGS, args, env).parsed, Words(args);
            HoldsOnce(p, words, env.probe) && HoldsAnywhere(p, words, env) && HoldsColor(p.colorMode, words)
  {
    var p, items := ParseOf(ARGS, args, env).parsed, Discount(ItemsOf(ARGS, args, env.probe).items);
    ParsedExactlyWhen(ARGS, args, env);
    ParsedSays(ARGS, args, env);
    WordsHeld(args, env.probe);
    OnceHolds(p, items, Words(args), env.probe);
    AnywhereHolds(p, items, Words(args), env);
    SubjectsTold(items, Words(args), env.probe);
    ColorHolds(p.colorMode, Words(args));
  }

  lemma OnceHolds(p: ParsedArguments, items: seq<Argument>, words: seq<Word>, probe: Probe)
    requires SaysOnce(p, items) && AllHeld(items, words, probe)
    ensures HoldsOnce(p, words, probe)
  {
    SubjectsTold(items, words, probe);
    DetailsTold(items, words, probe);
    EmitHolds(p.emit, Told(EmitIn, words)[0]);
  }

  lemma AnywhereHolds(p: ParsedArguments, items: seq<Argument>, words: seq<Word>, env: Env)
    requires SaysAnywhere(p, items, env) && AllHeld(items, words, env.probe)
    ensures HoldsAnywhere(p, words, env)
  {
    SubjectsTold(items, words, env.probe);
    DetailsTold(items, words, env.probe);
    TypesTold(items, words, env.probe);
  }

  lemma ColorHolds(mode: ColorMode, words: seq<Word>)
    requires mode == match Last(Told(ColorIn, words)) case None => Auto case Some(v) => ColorModeOf(v)
    ensures HoldsColor(mode, words)
  {
    assert "always"[0] != "never"[0];
  }

  lemma EmitHolds(emit: set<string>, v: string)
    requires emit == SetOf(Split(v, ','))
    ensures forall mode :: mode in emit <==> mode in Split(v, ',')
  {
  }
}
