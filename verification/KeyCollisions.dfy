/** Command lines that differ in meaning and not in what is hashed: the hashed
    strings follow one another with nothing between them. */
module KeyCollisions {
  import opened Wrappers
  import opened ArgTable
  import opened RustcTable
  import opened RustcArgs
  import opened Parse
  import opened ParseMeaning
  import opened CommandLines
  import opened Digest
  import opened KeyInvariance
  import opened KeyEdits

  predicate MakesLibrary(items: seq<Argument>) {
    exists a <- items :: MakesRlib(a) || MakesStaticlib(a)
  }

  predicate AllHarmless(items: seq<Argument>) {
    forall a <- items :: Harmless(a)
  }

  /** Two runs of arguments that say the same about everything but which crate
      is named, and that read alike when their strings are put together. */
  ghost predicate SameText(a: seq<Argument>, b: seq<Argument>) {
    && (forall targetJson :: Concat(Others(Core(a), targetJson)) == Concat(Others(Core(b), targetJson)))
    && Said(JsonTarget, Core(a)) == Said(JsonTarget, Core(b))
    && CfgsWritten(a) == CfgsWritten(b)
    && SaysAlike(a, b)
    && (Said(NameOfCrate, a) == [] <==> Said(NameOfCrate, b) == [])
    && (AllHarmless(a) <==> AllHarmless(b)) && (MakesLibrary(a) <==> MakesLibrary(b))
  }

  predicate SaysAlike(a: seq<Argument>, b: seq<Argument>) {
    && Said(Input, a) == Said(Input, b) && Said(EmitList, a) == Said(EmitList, b) && Said(OutputDir, a) == Said(OutputDir, b)
    && Said(ExternPath, a) == Said(ExternPath, b) && Said(StaticLib, a) == Said(StaticLib, b)
    && Said(NativePath, a) == Said(NativePath, b)
  }

  lemma OthersMore(a: seq<Argument>, b: seq<Argument>, targetJson: bool)
    ensures Others(a + b, targetJson) == Others(a, targetJson) + Others(b, targetJson)
  {
    if a == [] {
      assert a + b == b;
    } else {
      assert a == [a[0]] + a[1..] && a + b == [a[0]] + (a[1..] + b);
      FirstHashed(a[0], a[1..], targetJson);
      FirstHashed(a[0], a[1..] + b, targetJson);
      OthersMore(a[1..], b, targetJson);
    }
  }

  /** What holds of two runs put together, from what holds of each. */
  lemma TextMore(a: seq<Argument>, b: seq<Argument>, targetJson: bool)
    ensures Concat(Others(Core(a + b), targetJson)) == Concat(Others(Core(a), targetJson)) + Concat(Others(Core(b), targetJson))
    ensures Said(JsonTarget, Core(a + b)) == Said(JsonTarget, Core(a)) + Said(JsonTarget, Core(b))
    ensures AllHarmless(a + b) <==> AllHarmless(a) && AllHarmless(b)
    ensures MakesLibrary(a + b) <==> MakesLibrary(a) || MakesLibrary(b)
  {
    CoreMore(a, b);
    OthersMore(Core(a), Core(b), targetJson);
    ConcatMore(Others(Core(a), targetJson), Others(Core(b), targetJson));
    SaidMore(JsonTarget, Core(a), Core(b));
    assert forall x :: x in a + b <==> x in a || x in b;
  }

  lemma SayingsMore(a: seq<Argument>, b: seq<Argument>, x: seq<Argument>, y: seq<Argument>)
    requires SaysAlike(a, b) && SaysAlike(x, y)
    ensures SaysAlike(a + x, b + y)
  {
    SaidMore(Input, a, x);
    SaidMore(Input, b, y);
    SaidMore(EmitList, a, x);
    SaidMore(EmitList, b, y);
    SaidMore(OutputDir, a, x);
    SaidMore(OutputDir, b, y);
    SaidMore(ExternPath, a, x);
    SaidMore(ExternPath, b, y);
    SaidMore(StaticLib, a, x);
    SaidMore(StaticLib, b, y);
    SaidMore(NativePath, a, x);
    SaidMore(NativePath, b, y);
  }

  lemma TextsConcat(a: seq<Argument>, b: seq<Argument>, x: seq<Argument>, y: seq<Argument>)
    requires SameText(a, b) && SameText(x, y)
    ensures SameText(a + x, b + y)
  {
    SayingsMore(a, b, x, y);
    CfgsMore(a, x);
    CfgsMore(b, y);
    SaidMore(NameOfCrate, a, x);
    SaidMore(NameOfCrate, b, y);
    forall targetJson ensures Concat(Others(Core(a + x), targetJson)) == Concat(Others(Core(b + y), targetJson)) {
      TextMore(a, x, targetJson);
      TextMore(b, y, targetJson);
    }
    TextMore(a, x, true);
    TextMore(b, y, true);
  }

  lemma InputsByText(x: seq<Argument>, y: seq<Argument>, env: Env, read: string -> Option<string>)
    requires SameText(x, y)
    ensures InputFrom(x, env, read) == InputFrom(y, env, read)
  {
    var tj := Last(Said(JsonTarget, Core(x))).Some?;
    ConcatMore(Others(Core(x), tj), Strings.Sort(CfgsWritten(x)));
    ConcatMore(Others(Core(y), tj), Strings.Sort(CfgsWritten(y)));
  }

  lemma SameTextSameKey(c: seq<string>, d: seq<string>, env: Env)
    requires ItemsOf(ARGS, c, env.probe).error == ItemsOf(ARGS, d, env.probe).error
    requires SameText(Discount(ItemsOf(ARGS, c, env.probe).items), Discount(ItemsOf(ARGS, d, env.probe).items))
    ensures SameKey(c, d, env)
  {
    SameTextBothParsed(c, d, env);
    if ParseOf(ARGS, c, env).Parsed? {
      forall read ensures HashInput(ParseOf(ARGS, c, env).parsed, read) == HashInput(ParseOf(ARGS, d, env).parsed, read) {
        SameTextSameInput(c, d, env, read);
      }
    }
  }

  lemma SameTextBothParsed(c: seq<string>, d: seq<string>, env: Env)
    requires ItemsOf(ARGS, c, env.probe).error == ItemsOf(ARGS, d, env.probe).error
    requires SameText(Discount(ItemsOf(ARGS, c, env.probe).items), Discount(ItemsOf(ARGS, d, env.probe).items))
    ensures ParseOf(ARGS, c, env).Parsed? <==> ParseOf(ARGS, d, env).Parsed?
  {
    ParsedExactlyWhen(ARGS, c, env);
    ParsedExactlyWhen(ARGS, d, env);
    var x, y := Discount(ItemsOf(ARGS, c, env.probe).items), Discount(ItemsOf(ARGS, d, env.probe).items);
    assert Acceptable(x) && Complete(x) <==> Acceptable(y) && Complete(y) by { BothComplete(x, y); }
  }

  lemma BothComplete(x: seq<Argument>, y: seq<Argument>)
    requires SameText(x, y)
    ensures Acceptable(x) && Complete(x) <==> Acceptable(y) && Complete(y)
  {
    assert MakesLibrary(x) <==> MakesLibrary(y);
    assert AllHarmless(x) <==> AllHarmless(y);
  }

  lemma SameTextSameInput(c: seq<string>, d: seq<string>, env: Env, read: string -> Option<string>)
    requires ParseOf(ARGS, c, env).Parsed? && ParseOf(ARGS, d, env).Parsed?
    requires SameText(Discount(ItemsOf(ARGS, c, env.probe).items), Discount(ItemsOf(ARGS, d, env.probe).items))
    ensures HashInput(ParseOf(ARGS, c, env).parsed, read) == HashInput(ParseOf(ARGS, d, env).parsed, read)
  {
    HashInputIs(c, env, read);
    HashInputIs(d, env, read);
    InputsByText(Discount(ItemsOf(ARGS, c, env.probe).items), Discount(ItemsOf(ARGS, d, env.probe).items), env, read);
  }

  /** A flag that is hashed in its place. */
  predicate Hashed(flag: string) {
    flag != "" && !NeverHashed(flag) && flag != "--cfg" && flag != "--target"
  }

  /** The crate's name, given by the flag `f`, and then another flag. */
  function Apart(f: string, n: string, flag: string, v: string): seq<Argument> {
    [WithValue(f, ArgData.CrateName(n), Separated), WithValue(flag, ArgData.PassThrough(v), Separated)]
  }

  function Named(f: string, m: string): seq<Argument> {
    [WithValue(f, ArgData.CrateName(m), Separated)]
  }

  lemma TextOfOne(name: string, data: ArgData, targetJson: bool)
    requires Hashed(name) && !data.Color?
    ensures Concat(Others(Core([WithValue(name, data, Separated)]), targetJson)) == name + IntoArg(data)
  {
    var a := WithValue(name, data, Separated);
    CoreOfOne(a);
    FirstHashed(a, [], targetJson);
    assert [a] + [] == [a] && [Written(a)] + [] == [Written(a)];
    WrittenTwo(name, IntoArg(data));
    assert [Written(a)][1..] == [] && Written(a) + "" == Written(a);
  }

  lemma WrittenTwo(name: string, value: string)
    ensures Concat([name, value]) == name + value
  {
    assert [name, value][1..] == [value] && [value][1..] == [];
    assert Concat([value]) == value + "" == value;
    assert Concat([name, value]) == name + Concat([value]);
  }

  lemma Regrouped(a: string, b: string, c: string, d: string)
    ensures (a + b) + (c + d) == a + (b + c + d)
  {
  }

  lemma TextOfTwo(a: Argument, b: Argument, targetJson: bool)
    ensures Concat(Others(Core([a, b]), targetJson)) == Concat(Others(Core([a]), targetJson)) + Concat(Others(Core([b]), targetJson))
  {
    assert [a] + [b] == [a, b];
    TextMore([a], [b], targetJson);
  }

  lemma GluedTexts(f: string, n: string, flag: string, v: string, m: string, targetJson: bool)
    requires Hashed(f) && Hashed(flag) && m == n + flag + v
    ensures Concat(Others(Core(Apart(f, n, flag, v)), targetJson)) == Concat(Others(Core(Named(f, m)), targetJson))
  {
    var a, b := Apart(f, n, flag, v)[0], Apart(f, n, flag, v)[1];
    TextOfTwo(a, b, targetJson);
    TextOfOne(f, ArgData.CrateName(n), targetJson);
    TextOfOne(flag, ArgData.PassThrough(v), targetJson);
    TextOfOne(f, ArgData.CrateName(m), targetJson);
    assert (f + n) + (flag + v) == f + m by { Regrouped(f, n, flag, v); }
  }

  lemma QuietOne(a: Argument)
    requires a.WithValue? && Hashed(a.name) && (a.data.CrateName? || a.data.PassThrough?)
    ensures Said(Input, [a]) == Said(EmitList, [a]) == Said(OutputDir, [a]) == Said(ExternPath, [a]) == []
    ensures Said(StaticLib, [a]) == Said(NativePath, [a]) == Said(JsonTarget, Core([a])) == CfgsWritten([a]) == []
    ensures Said(NameOfCrate, [a]) == if a.data.CrateName? then [a.data.value] else []
    ensures AllHarmless([a]) && !MakesLibrary([a])
  {
    QuietText(a);
    SaidByOne(Input, a);
    SaidByOne(EmitList, a);
    SaidByOne(OutputDir, a);
    SaidByOne(ExternPath, a);
    SaidByOne(StaticLib, a);
    SaidByOne(NativePath, a);
    SaidByOne(NameOfCrate, a);
  }

  lemma QuietText(a: Argument)
    requires a.WithValue? && Hashed(a.name) && (a.data.CrateName? || a.data.PassThrough?)
    ensures Said(JsonTarget, Core([a])) == CfgsWritten([a]) == []
  {
    CoreOfOne(a);
    SaidByOne(JsonTarget, a);
  }

  lemma GluedSameText(f: string, n: string, flag: string, v: string, m: string)
    requires Hashed(f) && Hashed(flag) && m == n + flag + v
    ensures SameText(Apart(f, n, flag, v), Named(f, m))
    ensures Said(NameOfCrate, Apart(f, n, flag, v)) == [n] && Said(NameOfCrate, Named(f, m)) == [m]
  {
    var a, b := Apart(f, n, flag, v)[0], Apart(f, n, flag, v)[1];
    assert Apart(f, n, flag, v) == [a] + [b];
    forall targetJson
      ensures Concat(Others(Core(Apart(f, n, flag, v)), targetJson)) == Concat(Others(Core(Named(f, m)), targetJson))
    {
      GluedTexts(f, n, flag, v, m, targetJson);
    }
    QuietOne(a);
    QuietOne(b);
    QuietOne(Named(f, m)[0]);
    TextMore([a], [b], true);
    CfgsMore([a], [b]);
    var none: seq<Argument> := [];
    SayingsMore([a], none, [b], none);
    assert none + none == none;
    SaidMore(NameOfCrate, [a], [b]);
  }

  lemma WholesJoin(t: Table, a: seq<string>, b: seq<string>, probe: Probe)
    requires Whole(t, a, probe) && Whole(t, b, probe)
    ensures Whole(t, a + b, probe)
    ensures ItemsOf(t, a + b, probe).items == ItemsOf(t, a, probe).items + ItemsOf(t, b, probe).items
  {
    WholeAppend(t, a, b, probe);
    WholeConcat(t, a, b, probe);
  }

  lemma PairsRead(t: Table, e: ArgInfo, n: string, e': ArgInfo, v: string, probe: Probe)
    requires Searchable(t) && e in t && e.TakeArg? && e.disposition.CanBeSeparated? && Create(e.kind, n, probe).Ok?
    requires e' in t && e'.TakeArg? && e'.disposition.CanBeSeparated? && Create(e'.kind, v, probe).Ok?
    ensures Whole(t, [e.name, n, e'.name, v], probe)
    ensures ItemsOf(t, [e.name, n, e'.name, v], probe).items
            == [WithValue(e.name, Create(e.kind, n, probe).value, Separated), WithValue(e'.name, Create(e'.kind, v, probe).value, Separated)]
  {
    PairReads(t, e, n, probe);
    PairReads(t, e', v, probe);
    WholesJoin(t, [e.name, n], [e'.name, v], probe);
    assert [e.name, n] + [e'.name, v] == [e.name, n, e'.name, v];
  }

  lemma PairsListed(f: string, kind: Kind, n: string, g: string, kind': Kind, v: string, probe: Probe)
    requires Long(f, kind) in ARGS && Long(g, kind') in ARGS && Create(kind, n, probe).Ok? && Create(kind', v, probe).Ok?
    ensures Whole(ARGS, [f, n, g, v], probe)
    ensures ItemsOf(ARGS, [f, n, g, v], probe).items
            == [WithValue(f, Create(kind, n, probe).value, Separated), WithValue(g, Create(kind', v, probe).value, Separated)]
  {
    ArgsSearchable();
    PairsRead(ARGS, Long(f, kind), n, Long(g, kind'), v, probe);
  }

  lemma ApartIs(f: string, n: string, flag: string, v: string, probe: Probe)
    ensures Create(Kind.CrateName, n, probe).Ok? && Create(Kind.PassThrough, v, probe).Ok?
    ensures Apart(f, n, flag, v)
            == [WithValue(f, Create(Kind.CrateName, n, probe).value, Separated), WithValue(flag, Create(Kind.PassThrough, v, probe).value, Separated)]
  {
  }

  lemma ApartReads(f: string, n: string, flag: string, v: string, probe: Probe)
    requires Long(f, Kind.CrateName) in ARGS && Long(flag, Kind.PassThrough) in ARGS
    ensures Whole(ARGS, [f, n, flag, v], probe) && ItemsOf(ARGS, [f, n, flag, v], probe).items == Apart(f, n, flag, v)
  {
    ApartIs(f, n, flag, v, probe);
    PairsListed(f, Kind.CrateName, n, flag, Kind.PassThrough, v, probe);
  }

  lemma NamedReads(f: string, m: string, probe: Probe)
    requires Long(f, Kind.CrateName) in ARGS
    ensures Whole(ARGS, [f, m], probe) && ItemsOf(ARGS, [f, m], probe).items == Named(f, m)
  {
    Flagged(f, Kind.CrateName, m, probe);
  }

  lemma SameTextAround(x: seq<string>, a: seq<string>, b: seq<string>, y: seq<string>, env: Env)
    requires Whole(ARGS, x, env.probe) && Whole(ARGS, a, env.probe) && Whole(ARGS, b, env.probe)
    requires a != [] && b != [] && a[0] != "rustc" && b[0] != "rustc"
    requires SameText(ItemsOf(ARGS, a, env.probe).items, ItemsOf(ARGS, b, env.probe).items)
    ensures SameKey(x + (a + y), x + (b + y), env)
  {
    var before, i, j := Discount(ItemsOf(ARGS, x, env.probe).items), ItemsOf(ARGS, a, env.probe).items, ItemsOf(ARGS, b, env.probe).items;
    var after := ItemsOf(ARGS, y, env.probe).items;
    ItemsBetween(x, a, y, env.probe);
    ItemsBetween(x, b, y, env.probe);
    TextsConcat(i, j, after, after);
    TextsConcat(before, before, i + after, j + after);
    SameTextSameKey(x + (a + y), x + (b + y), env);
  }

  lemma NamedBetween(x: seq<string>, a: seq<string>, y: seq<string>, name: string, env: Env)
    requires Whole(ARGS, x, env.probe) && Whole(ARGS, a, env.probe) && a != [] && a[0] != "rustc"
    requires ParseOf(ARGS, x + (a + y), env).Parsed?
    requires Said(NameOfCrate, ItemsOf(ARGS, a, env.probe).items) == [name] && Said(NameOfCrate, ItemsOf(ARGS, y, env.probe).items) == []
    ensures ParseOf(ARGS, x + (a + y), env).parsed.crateName == name
  {
    ItemsBetween(x, a, y, env.probe);
    NamedIs(x + (a + y), env);
    LastNamed(Discount(ItemsOf(ARGS, x, env.probe).items), ItemsOf(ARGS, a, env.probe).items, ItemsOf(ARGS, y, env.probe).items, name);
  }

  lemma LastNamed(before: seq<Argument>, a: seq<Argument>, after: seq<Argument>, name: string)
    requires Said(NameOfCrate, a) == [name] && Said(NameOfCrate, after) == []
    ensures Last(Said(NameOfCrate, before + (a + after))) == Some(name)
  {
    SaidMore(NameOfCrate, a, after);
    SaidMore(NameOfCrate, before, a + after);
  }

  lemma NamedIs(args: seq<string>, env: Env)
    requires ParseOf(ARGS, args, env).Parsed?
    ensures Some(ParseOf(ARGS, args, env).parsed.crateName) == Last(Said(NameOfCrate, Discount(ItemsOf(ARGS, args, env.probe).items)))
  {
    ParsedSays(ARGS, args, env);
  }

  lemma NameTakesFlag(x: seq<string>, f: string, n: string, flag: string, v: string, m: string, y: seq<string>, env: Env)
    requires Whole(ARGS, x, env.probe) && Long(f, Kind.CrateName) in ARGS && Long(flag, Kind.PassThrough) in ARGS
    requires f != "rustc" && Hashed(f) && Hashed(flag) && m == n + flag + v
    ensures SameKey(x + ([f, n, flag, v] + y), x + ([f, m] + y), env)
    ensures DifferInName(x + ([f, n, flag, v] + y), n, x + ([f, m] + y), m, y, env)
  {
    var a, b := [f, n, flag, v], [f, m];
    ApartReads(f, n, flag, v, env.probe);
    NamedReads(f, m, env.probe);
    GluedSameText(f, n, flag, v, m);
    assert |m| > |n|;
    SameTextAround(x, a, b, y, env);
    NamesDiffer(x, a, n, b, m, y, env);
  }

  lemma NamesDiffer(x: seq<string>, a: seq<string>, n: string, b: seq<string>, m: string, y: seq<string>, env: Env)
    requires Whole(ARGS, x, env.probe) && Whole(ARGS, a, env.probe) && Whole(ARGS, b, env.probe)
    requires a != [] && b != [] && a[0] != "rustc" && b[0] != "rustc" && n != m
    requires Said(NameOfCrate, ItemsOf(ARGS, a, env.probe).items) == [n] && Said(NameOfCrate, ItemsOf(ARGS, b, env.probe).items) == [m]
    requires SameKey(x + (a + y), x + (b + y), env)
    ensures DifferInName(x + (a + y), n, x + (b + y), m, y, env)
  {
    if ParseOf(ARGS, x + (a + y), env).Parsed? && Said(NameOfCrate, ItemsOf(ARGS, y, env.probe).items) == [] {
      NamedBetween(x, a, y, n, env);
      NamedBetween(x, b, y, m, env);
    }
  }

  /** Parsed, and where no crate is named in `y`, to different names. */
  predicate DifferInName(c: seq<string>, n: string, d: seq<string>, m: string, y: seq<string>, env: Env) {
    ParseOf(ARGS, c, env).Parsed? && Said(NameOfCrate, ItemsOf(ARGS, y, env.probe).items) == [] ==>
      ParseOf(ARGS, d, env).Parsed? && ParseOf(ARGS, c, env).parsed.crateName == n && ParseOf(ARGS, d, env).parsed.crateName == m != n
  }

  /** Wherever a passed-through flag and its value follow the crate's name, both
      can be put into the name: the key stays the same, and if no other name
      comes after, the two lines name different crates. */
  lemma GluedFlagsCollide(x: seq<string>, n: string, flag: string, v: string, m: string, y: seq<string>, env: Env)
    requires Whole(ARGS, x, env.probe) && Long(flag, Kind.PassThrough) in ARGS && Hashed(flag) && m == n + flag + v
    ensures SameKey(x + (["--crate-name", n, flag, v] + y), x + (["--crate-name", m] + y), env)
    ensures DifferInName(x + (["--crate-name", n, flag, v] + y), n, x + (["--crate-name", m] + y), m, y, env)
  {
    LandmarkCrateName();
    NameTakesFlag(x, "--crate-name", n, flag, v, m, y, env);
  }

  lemma LandmarkCrateName()
    ensures |ARGS| == 41 && ARGS[7] == Long("--crate-name", Kind.CrateName)
  {
  }

  /** `--edition`, with which cargo goes on after the name, is such a flag. */
  lemma EditionCollides(n: string, v: string, m: string, y: seq<string>, env: Env)
    requires m == n + "--edition" + v
    ensures SameKey(["--crate-name", n, "--edition", v] + y, ["--crate-name", m] + y, env)
    ensures DifferInName(["--crate-name", n, "--edition", v] + y, n, ["--crate-name", m] + y, m, y, env)
  {
    var none: seq<string>, a, b := [], ["--crate-name", n, "--edition", v] + y, ["--crate-name", m] + y;
    assert none + a == a && none + b == b;
    LandmarkEdition();
    GluedFlagsCollide(none, n, "--edition", v, m, y, env);
  }

  lemma LandmarkEdition()
    ensures |ARGS| == 41 && ARGS[11] == Long("--edition", Kind.PassThrough)
  {
  }
}
