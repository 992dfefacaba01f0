/** Writing the parsed arguments out and reading them again. */
module Reparse {
  import opened Wrappers
  import opened Strings
  import opened ArgTable
  import opened RustcTable
  import opened RustcArgs
  import opened Parse
  import opened ParseMeaning

  /** The value of flag `e`, read from `v`. */
  predicate ReadFrom(e: ArgInfo, name: string, data: ArgData, v: string, probe: Probe) {
    e.TakeArg? && e.name == name && Create(e.kind, v, probe) == Ok(data)
  }

  /** What an argument read from a command line can look like. One that has its
      value neither behind it nor in it is a short flag at the very end. */
  ghost predicate Origin(t: Table, a: Argument, probe: Probe) {
    match a
    case Raw(s) => Bisect(t, s) == None && !("-" <= s)
    case UnknownFlag(s) => Bisect(t, s) == None && "-" <= s
    case Flag(_, data) => data.TooHardFlag? || data.NotCompilationFlag?
    case WithValue(name, data, Separated) => exists e, v :: e in t && ReadFrom(e, name, data, v, probe)
    case WithValue(name, data, disposition) =>
      disposition == Concatenated(None) && exists e :: e in t && BareFlag(e) && ReadFrom(e, name, data, "", probe)
  }

  predicate BareFlag(e: ArgInfo) {
    e.TakeArg? && (e.disposition.CanBeSeparated? || e.disposition.CanBeConcatenated?) && e.disposition.delimiter.None?
  }

  lemma OriginOfOne(t: Table, args: seq<string>, probe: Probe)
    requires ValuesMayFollow(t) && args != [] && Classify(t, args, probe).result.Ok?
    ensures var p := Classify(t, args, probe);
            Origin(t, Normalize(p.result.value), probe)
            && (Normalize(p.result.value).WithValue? && !Normalize(p.result.value).disposition.Separated? ==> p.rest == [])
  {
    var found := Bisect(t, args[0]);
    var a := Normalize(Classify(t, args, probe).result.value);
    if found.Some? && found.value.TakeArg? {
      var e := found.value;
      assert e in t;
      if args[0] == e.name {
        var v := if |args| == 1 then "" else args[1];
        assert ReadFrom(e, a.name, a.data, v, probe);
      } else {
        var d := e.disposition.delimiter;
        var len := if d.Some? && |args[0]| > |e.name| && args[0][|e.name|] == d.value then |e.name| + 1 else |e.name|;
        assert ReadFrom(e, a.name, a.data, args[0][len..], probe);
      }
    }
  }

  lemma {:induction false} NoOtherTypes(types: seq<string>)
    requires OtherTypes(types) == []
    ensures forall ty <- types :: IsRlib(ty) || ty == "staticlib"
  {
    if types != [] {
      NoOtherTypes(types[1..]);
      assert types == [types[0]] + types[1..];
    }
  }

  lemma UniqueNotEmpty(s: seq<string>)
    ensures Unique(s) == [] <==> s == []
  {
  }

  /** A list of crate types without others names at least one that counts. */
  lemma SomeTypeCounts(types: seq<string>)
    requires types != [] && CrateTypesOf(types).others == []
    ensures CrateTypesOf(types).rlib || CrateTypesOf(types).staticlib
  {
    UniqueNotEmpty(Sort(OtherTypes(types)));
    SortSorts(OtherTypes(types));
    assert |multiset(Sort(OtherTypes(types)))| == |OtherTypes(types)|;
    NoOtherTypes(types);
    assert types[0] in types;
  }

  lemma BothTypesRead()
    ensures CrateTypesOf(["rlib"]) == CrateTypes(true, false, [])
    ensures CrateTypesOf(["staticlib"]) == CrateTypes(false, true, [])
    ensures CrateTypesOf(["rlib", "staticlib"]) == CrateTypes(true, true, [])
  {
    assert ["rlib"][1..] == [] && ["staticlib"][1..] == [];
    assert ["rlib", "staticlib"][1..] == ["staticlib"];
    assert IsRlib("rlib") && !IsRlib("staticlib");
    assert "rlib" in ["rlib"] && "rlib" in ["rlib", "staticlib"];
    assert OtherTypes(["rlib"]) == [] && OtherTypes(["staticlib"]) == [];
    assert OtherTypes(["rlib", "staticlib"]) == [];
  }

  lemma TypesInOrder()
    ensures Sort(["rlib"]) == ["rlib"] && Sort(["staticlib"]) == ["staticlib"]
    ensures Sort(["rlib", "staticlib"]) == ["rlib", "staticlib"]
  {
    assert ["rlib"][1..] == [] && ["staticlib"][1..] == [];
    assert ["rlib", "staticlib"][1..] == ["staticlib"];
    assert Less("rlib", "staticlib");
  }

  function TypeNames(rlib: bool, staticlib: bool): seq<string> {
    (if rlib then ["rlib"] else []) + if staticlib then ["staticlib"] else []
  }

  lemma TypesWritten(rlib: bool, staticlib: bool)
    requires rlib || staticlib
    ensures IntoArg(ArgData.CrateType(CrateTypes(rlib, staticlib, []))) == Join(TypeNames(rlib, staticlib), ',')
  {
    TypesInOrder();
    var none: seq<string> := [];
    var written := none + (if rlib then ["rlib"] else []) + if staticlib then ["staticlib"] else [];
    assert written == TypeNames(rlib, staticlib);
    if rlib && staticlib {
      assert written == ["rlib", "staticlib"];
    } else if rlib {
      assert written == ["rlib"];
    } else {
      assert written == ["staticlib"];
    }
  }

  lemma TypesSplit(rlib: bool, staticlib: bool)
    requires rlib || staticlib
    ensures Split(Join(TypeNames(rlib, staticlib), ','), ',') == TypeNames(rlib, staticlib)
  {
    SplitNone("rlib", ',');
    SplitNone("staticlib", ',');
    if rlib && staticlib {
      SplitConcat("rlib", ',', "staticlib");
      assert ["rlib", "staticlib"][1..] == ["staticlib"];
    }
  }

  lemma CrateTypeRoundTrip(rlib: bool, staticlib: bool)
    requires rlib || staticlib
    ensures var types := CrateTypes(rlib, staticlib, []);
            CrateTypesOf(Split(IntoArg(ArgData.CrateType(types)), ',')) == types
  {
    TypesWritten(rlib, staticlib);
    TypesSplit(rlib, staticlib);
    BothTypesRead();
    assert TypeNames(rlib, staticlib)
        == if rlib && staticlib then ["rlib", "staticlib"] else if rlib then ["rlib"] else ["staticlib"];
  }

  lemma LinkRoundTrip(kind: Kind, v: string, probe: Probe)
    requires kind.LinkLibrary? || kind.LinkPath?
    ensures Create(kind, v, probe).Ok? && Create(kind, IntoArg(Create(kind, v, probe).value), probe) == Create(kind, v, probe)
  {
    SplitOnceParts(v, '=');
    var (a, b) := SplitOnce(v, '=');
    var default := if kind.LinkLibrary? then "dylib" else "all";
    SplitOnceJoin(if b.Some? then a else default, '=', if b.Some? then b.value else a);
  }

  lemma OptionRoundTrip(kind: Kind, v: string, probe: Probe)
    requires kind.CodeGen? || kind.Unstable? || (kind.Extern? && Create(kind, v, probe).Ok?)
    ensures Create(kind, v, probe).Ok? && Create(kind, IntoArg(Create(kind, v, probe).value), probe) == Create(kind, v, probe)
  {
    SplitOnceParts(v, '=');
  }

  /** Writing a value and reading it again gives the value, unless it is a list
      with crate types that are never cached. */
  lemma ValueRoundTrip(kind: Kind, v: string, probe: Probe)
    requires Create(kind, v, probe).Ok?
    requires kind.CrateType? ==> Create(kind, v, probe).value.types.others == []
    ensures Create(kind, IntoArg(Create(kind, v, probe).value), probe) == Create(kind, v, probe)
  {
    if kind.LinkLibrary? || kind.LinkPath? {
      LinkRoundTrip(kind, v, probe);
    } else if kind.CodeGen? || kind.Unstable? || kind.Extern? {
      OptionRoundTrip(kind, v, probe);
    } else if kind.CrateType? {
      var types := CrateTypesOf(Split(v, ','));
      SomeTypeCounts(Split(v, ','));
      CrateTypeRoundTrip(types.rlib, types.staticlib);
    }
  }

  /** A short library flag with nothing behind it: it is written out with the
      kind it was given by default. */
  predicate BareLink(a: Argument) {
    a.WithValue? && a.disposition.Concatenated? && (a.data.LinkLibrary? || a.data.LinkPath?)
  }

  function ReadBack(a: Argument): Argument {
    if BareLink(a) then a.(disposition := Separated) else a
  }

  function ReadBackAll(items: seq<Argument>): seq<Argument> {
    seq(|items|, i requires 0 <= i < |items| => ReadBack(items[i]))
  }

  lemma FindsItself(t: Table, e: ArgInfo, key: string)
    requires Searchable(t) && e in t && Matches(e, key)
    ensures Bisect(t, key) == Some(e)
  {
    SearchIsScan(t, key);
    ScanFindsThis(t, key, e);
  }

  lemma NoTypeIsOther()
    ensures CrateTypesOf(Split("", ',')).others != []
  {
    assert OtherTypes([""]) == [""];
    UniqueNotEmpty(Sort([""]));
    SortSorts([""]);
    assert "" in multiset(Sort([""]));
  }

  lemma EmptyValueWrites(kind: Kind, probe: Probe)
    requires Create(kind, "", probe).Ok? && !kind.CrateType?
    ensures var data := Create(kind, "", probe).value; IntoArg(data) == "" || data.LinkLibrary? || data.LinkPath?
  {
  }

  lemma SeparatedReadsBack(t: Table, a: Argument, after: seq<string>, probe: Probe)
    requires Searchable(t) && ValuesMayFollow(t) && Origin(t, a, probe) && Harmless(a)
    requires a.WithValue? && a.disposition.Separated?
    ensures var p := Classify(t, Emitted(a) + after, probe); p.result.Ok? && Normalize(p.result.value) == a && p.rest == after
  {
    var e, v :| e in t && ReadFrom(e, a.name, a.data, v, probe);
    FindsItself(t, e, a.name);
    ValueRoundTrip(e.kind, v, probe);
    var args := Emitted(a) + after;
    assert args[0] == a.name && args[1..][0] == IntoArg(a.data) && args[1..][1..] == after;
  }

  lemma BareReadsBack(t: Table, a: Argument, probe: Probe)
    requires Searchable(t) && ValuesMayFollow(t) && Origin(t, a, probe) && Harmless(a)
    requires a.WithValue? && !a.disposition.Separated?
    ensures var p := Classify(t, Emitted(a), probe); p.result.Ok? && Normalize(p.result.value) == ReadBack(a) && p.rest == []
  {
    var e :| e in t && BareFlag(e) && ReadFrom(e, a.name, a.data, "", probe);
    if e.kind.CrateType? {
      NoTypeIsOther();
      assert false;
    }
    EmptyValueWrites(e.kind, probe);
    var key := a.name + "" + IntoArg(a.data);
    assert Emitted(a) == [key] && key[|a.name|..] == IntoArg(a.data);
    FindsItself(t, e, key);
    ValueRoundTrip(e.kind, "", probe);
    if IntoArg(a.data) == "" { assert key == a.name; }
  }

  /** One argument written out reads as itself, or as its separated form. */
  lemma OneReadsBack(t: Table, a: Argument, after: seq<string>, probe: Probe)
    requires Searchable(t) && ValuesMayFollow(t) && Origin(t, a, probe) && Harmless(a)
    requires a.WithValue? && !a.disposition.Separated? ==> after == []
    ensures var p := Classify(t, Emitted(a) + after, probe);
            p.result.Ok? && Normalize(p.result.value) == ReadBack(a) && p.rest == after
  {
    var args := Emitted(a) + after;
    if a.WithValue? {
      if a.disposition.Separated? {
        SeparatedReadsBack(t, a, after, probe);
      } else {
        BareReadsBack(t, a, probe);
        assert args == Emitted(a);
      }
    } else {
      assert args[0] == a.text && args[1..] == after;
    }
  }

  /** Without its canonical spelling an argument does not survive: one joined by
      a delimiter reads back exactly when its value is written as something. */
  lemma UnnormalizedSurvivesExactlyWhen(t: Table, e: ArgInfo, v: string, probe: Probe)
    requires Searchable(t) && e in t && e.TakeArg? && e.disposition.CanBeSeparated? && e.disposition.delimiter.Some?
    requires Create(e.kind, v, probe).Ok? && (e.kind.CrateType? ==> Create(e.kind, v, probe).value.types.others == [])
    ensures var a := WithValue(e.name, Create(e.kind, v, probe).value, e.disposition);
            ItemsOf(t, Emitted(a), probe) == Items([Normalize(a)], None) <==> IntoArg(a.data) != ""
  {
    var a := WithValue(e.name, Create(e.kind, v, probe).value, e.disposition);
    var d, w := e.disposition.delimiter.value, IntoArg(a.data);
    var key := Emitted(a)[0];
    ValueRoundTrip(e.kind, v, probe);
    if w == "" {
      assert key == e.name;
    } else {
      assert key == e.name + [d] + w && e.name <= key && key[|e.name|] == d && key[|e.name| + 1..] == w;
    }
    FindsItself(t, e, key);
    assert Emitted(a)[1..] == [];
  }

  /** A list of arguments as they come off a command line. */
  ghost predicate Readable(t: Table, items: seq<Argument>, probe: Probe) {
    items != [] ==>
      && Origin(t, items[0], probe)
      && (items[0].WithValue? && !items[0].disposition.Separated? ==> items[1..] == [])
      && Readable(t, items[1..], probe)
  }

  lemma {:induction false} ItemsReadable(t: Table, args: seq<string>, probe: Probe)
    requires ValuesMayFollow(t)
    ensures Readable(t, ItemsOf(t, args, probe).items, probe)
    decreases |args|
  {
    if args != [] {
      var p := Classify(t, args, probe);
      if p.result.Ok? {
        OriginOfOne(t, args, probe);
        ItemsReadable(t, p.rest, probe);
        var rest := ItemsOf(t, p.rest, probe).items;
        assert ([Normalize(p.result.value)] + rest)[1..] == rest;
      }
    }
  }

  lemma ReadableFirst(t: Table, a: Argument, rest: seq<Argument>, probe: Probe)
    requires Origin(t, a, probe) && Readable(t, rest, probe)
    requires a.WithValue? && !a.disposition.Separated? ==> rest == []
    ensures Readable(t, [a] + rest, probe)
  {
    assert ([a] + rest)[1..] == rest;
  }

  lemma {:induction false} WithoutColorsReadable(t: Table, items: seq<Argument>, probe: Probe)
    requires Readable(t, items, probe)
    ensures Readable(t, WithoutColors(items), probe)
  {
    if items != [] {
      var rest := WithoutColors(items[1..]);
      WithoutColorsReadable(t, items[1..], probe);
      if IsColor(items[0]) {
        assert [] + rest == rest;
      } else {
        ReadableFirst(t, items[0], rest, probe);
      }
    }
  }

  /** Everything written out reads as it was, but for a bare library flag. */
  lemma {:induction false} AllReadBack(t: Table, items: seq<Argument>, probe: Probe)
    requires Searchable(t) && ValuesMayFollow(t) && Readable(t, items, probe) && forall a <- items :: Harmless(a)
    ensures ItemsOf(t, EmitAll(items), probe) == Items(ReadBackAll(items), None)
  {
    if items == [] {
      assert ReadBackAll(items) == [];
    } else {
      var after := EmitAll(items[1..]);
      OneReadsBack(t, items[0], after, probe);
      AllReadBack(t, items[1..], probe);
      assert EmitAll(items) != [];
      assert ReadBackAll(items) == [ReadBack(items[0])] + ReadBackAll(items[1..]);
    }
  }

  lemma {:induction false} SaidWithoutColors(says: Argument -> Option<string>, items: seq<Argument>)
    requires forall a | IsColor(a) :: says(a) == None
    ensures Said(says, WithoutColors(items)) == Said(says, items)
  {
    if items != [] {
      SaidWithoutColors(says, items[1..]);
      SaidMore(says, if IsColor(items[0]) then [] else [items[0]], WithoutColors(items[1..]));
      assert items[0..1][1..] == [];
    }
  }

  lemma {:induction false} ColorsGone(items: seq<Argument>)
    ensures forall a :: a in WithoutColors(items) <==> a in items && !IsColor(a)
  {
    if items != [] {
      ColorsGone(items[1..]);
      assert items == [items[0]] + items[1..];
    }
  }

  lemma {:induction false} NoColors(items: seq<Argument>)
    requires forall a <- items :: !IsColor(a)
    ensures WithoutColors(items) == items && forall mode :: LastColor(mode, items) == mode
  {
    if items != [] {
      NoColors(items[1..]);
      assert items == [items[0]] + items[1..];
    }
  }

  lemma AcceptableWithoutColors(items: seq<Argument>)
    ensures Acceptable(WithoutColors(items)) <==> Acceptable(items)
  {
    SaidWithoutColors(EmitList, items);
    SaidWithoutColors(Input, items);
    ColorsGone(items);
  }

  /** Colours mean nothing to what is gathered. */
  lemma MeaningWithoutColors(items: seq<Argument>, cwd: string)
    ensures Meaning(WithoutColors(items), cwd) == Meaning(items, cwd)
  {
    SaidWithoutColors(EmitList, items);
    SaidWithoutColors(Input, items);
    SaidWithoutColors(OutputDir, items);
    SaidWithoutColors(NameOfCrate, items);
    SaidWithoutColors(ExtraFilename, items);
    SaidWithoutColors(Profile, items);
    SaidWithoutColors(JsonTarget, items);
    SaidWithoutColors(ExternPath, items);
    SaidWithoutColors(StaticLib, items);
    SaidWithoutColors(CratePath, items);
    SaidWithoutColors(NativePath, items);
    ColorsGone(items);
  }

  predicate EndsBare(items: seq<Argument>) {
    items != [] && BareLink(items[|items| - 1])
  }

  lemma {:induction false} BareIsLast(t: Table, items: seq<Argument>, probe: Probe, i: nat)
    requires Readable(t, items, probe) && i < |items| && BareLink(items[i])
    ensures i == |items| - 1
  {
    if i > 0 { BareIsLast(t, items[1..], probe, i - 1); }
  }

  lemma {:induction false} SaidReadBack(says: Argument -> Option<string>, items: seq<Argument>)
    requires forall a :: says(ReadBack(a)) == says(a)
    ensures Said(says, ReadBackAll(items)) == Said(says, items)
  {
    if items == [] {
      assert ReadBackAll(items) == [];
    } else {
      SaidReadBack(says, items[1..]);
      assert ReadBackAll(items)[1..] == ReadBackAll(items[1..]);
    }
  }

  /** What is left of a command line once its only input is discounted. */
  lemma InputDiscounted(items: seq<Argument>)
    requires Acceptable(items) && items != [] && items[0] == Raw("rustc")
    ensures Said(Input, ReadBackAll(items)[1..]) == []
  {
    SaidReadBack(Input, items);
    assert ReadBackAll(items)[0] == Raw("rustc");
    assert Said(Input, ReadBackAll(items)) == ["rustc"] + Said(Input, ReadBackAll(items)[1..]);
  }

  lemma OnlyColorDiffers(g: Gathered, args: seq<Argument>, color: ColorMode, env: Env)
    requires Conclude(g, args, color, env).Parsed?
    ensures Conclude(g, args, color, env).parsed.arguments == args
    ensures Conclude(g, args, Auto, env) == Parsed(Conclude(g, args, color, env).parsed.(colorMode := Auto))
  {
  }

  lemma ParsedIsConcluded(t: Table, args: seq<string>, env: Env)
    requires ParseOf(t, args, env).Parsed?
    ensures var items := Discount(ItemsOf(t, args, env.probe).items);
            ParseOf(t, args, env) == Conclude(Meaning(items, env.cwd), WithoutColors(items), LastColor(Auto, items), env)
  {
    ParsedExactlyWhen(t, args, env);
    AcceptableMeans(t, args, env);
  }

  lemma ArgumentsAreItems(t: Table, args: seq<string>, env: Env)
    requires ParseOf(t, args, env).Parsed?
    ensures var items := Discount(ItemsOf(t, args, env.probe).items);
            ParseOf(t, args, env).parsed.arguments == WithoutColors(items) && Acceptable(items) && Said(Input, items) != []
  {
    var items := Discount(ItemsOf(t, args, env.probe).items);
    ParsedExactlyWhen(t, args, env);
    ParsedIsConcluded(t, args, env);
    OnlyColorDiffers(Meaning(items, env.cwd), WithoutColors(items), LastColor(Auto, items), env);
  }

  /** The arguments of a parsed command line can be written out and read. */
  lemma ArgumentsReadBack(t: Table, args: seq<string>, env: Env)
    requires Searchable(t) && ValuesMayFollow(t) && ParseOf(t, args, env).Parsed?
    ensures var arguments := ParseOf(t, args, env).parsed.arguments;
            && arguments == WithoutColors(Discount(ItemsOf(t, args, env.probe).items))
            && arguments != [] && Acceptable(arguments) && Readable(t, arguments, env.probe)
            && ItemsOf(t, EmitAll(arguments), env.probe) == Items(ReadBackAll(arguments), None)
  {
    var items := Discount(ItemsOf(t, args, env.probe).items);
    ArgumentsAreItems(t, args, env);
    ItemsReadable(t, args, env.probe);
    WithoutColorsReadable(t, items, env.probe);
    AcceptableWithoutColors(items);
    SaidWithoutColors(Input, items);
    AllReadBack(t, WithoutColors(items), env.probe);
  }

  lemma ParseOfItems(t: Table, args: seq<string>, env: Env, items: seq<Argument>)
    requires ItemsOf(t, args, env.probe) == Items(items, None) && Acceptable(items)
    requires items != [] ==> items[0] != Raw("rustc")
    ensures ParseOf(t, args, env) == Conclude(Meaning(items, env.cwd), WithoutColors(items), LastColor(Auto, items), env)
  {
    AcceptableMeans(t, args, env);
  }

  lemma NothingBare(t: Table, items: seq<Argument>, probe: Probe)
    requires Readable(t, items, probe) && !EndsBare(items)
    ensures ReadBackAll(items) == items
  {
    forall i: nat | i < |items| ensures !BareLink(items[i]) {
      if BareLink(items[i]) { BareIsLast(t, items, probe, i); }
    }
  }

  lemma StableIf(t: Table, args: seq<string>, env: Env)
    requires Searchable(t) && ValuesMayFollow(t) && ParseOf(t, args, env).Parsed?
    requires var arguments := ParseOf(t, args, env).parsed.arguments;
             arguments != [] ==> arguments[0] != Raw("rustc") && !EndsBare(arguments)
    ensures var p := ParseOf(t, args, env).parsed;
            ParseOf(t, EmitAll(p.arguments), env) == Parsed(p.(colorMode := Auto))
  {
    var items := Discount(ItemsOf(t, args, env.probe).items);
    var arguments := WithoutColors(items);
    ArgumentsReadBack(t, args, env);
    NothingBare(t, arguments, env.probe);
    ColorsGone(items);
    NoColors(arguments);
    ParseOfItems(t, EmitAll(arguments), env, arguments);
    MeaningWithoutColors(items, env.cwd);
    ParsedIsConcluded(t, args, env);
    OnlyColorDiffers(Meaning(items, env.cwd), arguments, LastColor(Auto, items), env);
  }

  lemma NoInputLeft(t: Table, args: seq<string>, env: Env, items: seq<Argument>)
    requires ItemsOf(t, args, env.probe) == Items(items, None) && Said(Input, Discount(items)) == []
    ensures !ParseOf(t, args, env).Parsed?
  {
    ParsedExactlyWhen(t, args, env);
  }

  lemma BareDiffers(arguments: seq<Argument>)
    requires EndsBare(arguments) && arguments[0] != Raw("rustc") && forall a <- arguments :: !IsColor(a)
    ensures var again := ReadBackAll(arguments);
            again != arguments && Discount(again) == again && forall a <- again :: !IsColor(a)
  {
    var again := ReadBackAll(arguments);
    assert again[|again| - 1] != arguments[|again| - 1];
  }

  lemma BareChanges(t: Table, args: seq<string>, env: Env, arguments: seq<Argument>)
    requires ItemsOf(t, args, env.probe) == Items(ReadBackAll(arguments), None) && EndsBare(arguments)
    requires arguments[0] != Raw("rustc") && forall a <- arguments :: !IsColor(a)
    ensures ParseOf(t, args, env).Parsed? ==> ParseOf(t, args, env).parsed.arguments != arguments
  {
    BareDiffers(arguments);
    if ParseOf(t, args, env).Parsed? {
      ArgumentsAreItems(t, args, env);
      NoColors(ReadBackAll(arguments));
    }
  }

  lemma UnstableIf(t: Table, args: seq<string>, env: Env)
    requires Searchable(t) && ValuesMayFollow(t) && ParseOf(t, args, env).Parsed?
    requires var arguments := ParseOf(t, args, env).parsed.arguments;
             arguments != [] && (arguments[0] == Raw("rustc") || EndsBare(arguments))
    ensures var p := ParseOf(t, args, env).parsed;
            ParseOf(t, EmitAll(p.arguments), env) != Parsed(p.(colorMode := Auto))
  {
    var arguments := ParseOf(t, args, env).parsed.arguments;
    ArgumentsReadBack(t, args, env);
    if arguments[0] == Raw("rustc") {
      InputDiscounted(arguments);
      NoInputLeft(t, EmitAll(arguments), env, ReadBackAll(arguments));
    } else {
      ColorsGone(Discount(ItemsOf(t, args, env.probe).items));
      BareChanges(t, EmitAll(arguments), env, arguments);
    }
  }

  /** Parse, write out, parse: every field but `color_mode` comes back, exactly
      when the input is not a leading `rustc` and the command line does not end
      in a bare `-l` or `-L`. */
  lemma ReparseIsStable(args: seq<string>, env: Env)
    requires ParseOf(ARGS, args, env).Parsed?
    ensures var p := ParseOf(ARGS, args, env).parsed;
            && p.arguments != []
            && (ParseOf(ARGS, EmitAll(p.arguments), env) == Parsed(p.(colorMode := Auto))
                <==> p.arguments[0] != Raw("rustc") && !BareLink(p.arguments[|p.arguments| - 1]))
  {
    ArgsSearchable();
    ArgsValuesMayFollow();
    ArgumentsReadBack(ARGS, args, env);
    var arguments := ParseOf(ARGS, args, env).parsed.arguments;
    if arguments[0] == Raw("rustc") || EndsBare(arguments) { UnstableIf(ARGS, args, env); } else { StableIf(ARGS, args, env); }
  }
}
