/** What reaches the hasher: every flag that is not one of a few makes the hashed
    text longer by its own length, so no such flag can come or go unseen. */
module KeyLengths {
  import opened Wrappers
  import opened Strings
  import opened Paths
  import opened ArgTable
  import opened RustcTable
  import opened RustcArgs
  import opened Parse
  import opened ParseMeaning
  import opened CommandWords
  import opened RustcWords
  import CommandLines
  import opened Digest
  import opened KeyInvariance
  import opened KeyEdits
  import KeyCollisions

  lemma {:induction false} InsertLength(le: (string, string) -> bool, x: string, s: seq<string>)
    ensures |Concat(InsertBy(le, x, s))| == |x| + |Concat(s)|
  {
    if s != [] && !le(x, s[0]) {
      InsertLength(le, x, s[1..]);
      assert ([s[0]] + InsertBy(le, x, s[1..]))[1..] == InsertBy(le, x, s[1..]);
    } else {
      assert ([x] + s)[1..] == s;
    }
  }

  lemma {:induction false} SortLength(le: (string, string) -> bool, s: seq<string>)
    ensures |Concat(SortBy(le, s))| == |Concat(s)|
  {
    if s != [] {
      SortLength(le, s[1..]);
      InsertLength(le, s[0], SortBy(le, s[1..]));
    }
  }

  /** Nothing is said by it that a parse goes by. */
  predicate Quiet(a: Argument) {
    && Harmless(a) && Input(a) == None && EmitList(a) == None && OutputDir(a) == None && NameOfCrate(a) == None
    && ExternPath(a) == None && StaticLib(a) == None && NativePath(a) == None && JsonTarget(a) == None
    && !MakesRlib(a) && !MakesStaticlib(a)
  }

  lemma SaidAround(says: Argument -> Option<string>, i: seq<Argument>, a: Argument, j: seq<Argument>)
    requires says(a) == None
    ensures Said(says, i + ([a] + j)) == Said(says, i + j)
  {
    SaidMore(says, i, [a] + j);
    SaidMore(says, [a], j);
    SaidByOne(says, a);
    SaidMore(says, i, j);
  }

  lemma QuietSaid(i: seq<Argument>, a: Argument, j: seq<Argument>)
    requires Quiet(a)
    ensures KeyCollisions.SaysAlike(i + ([a] + j), i + j) && Said(NameOfCrate, i + ([a] + j)) == Said(NameOfCrate, i + j)
    ensures Acceptable(i + ([a] + j)) && Complete(i + ([a] + j)) <==> Acceptable(i + j) && Complete(i + j)
  {
    SaidAround(Input, i, a, j);
    SaidAround(EmitList, i, a, j);
    SaidAround(OutputDir, i, a, j);
    SaidAround(NameOfCrate, i, a, j);
    SaidAround(ExternPath, i, a, j);
    SaidAround(StaticLib, i, a, j);
    SaidAround(NativePath, i, a, j);
    assert forall x :: x in i + ([a] + j) <==> x == a || x in i + j;
  }

  /** The length of what is hashed of the arguments. */
  function TextLength(items: seq<Argument>, targetJson: bool): nat {
    |Concat(Others(Core(items), targetJson))| + |Concat(CfgsWritten(items))|
  }

  lemma TextLengthMore(a: seq<Argument>, b: seq<Argument>, targetJson: bool)
    ensures TextLength(a + b, targetJson) == TextLength(a, targetJson) + TextLength(b, targetJson)
  {
    KeyCollisions.TextMore(a, b, targetJson);
    CfgsMore(a, b);
    ConcatMore(CfgsWritten(a), CfgsWritten(b));
  }

  lemma InputLength(items: seq<Argument>, env: Env, read: string -> Option<string>)
    ensures var json := Last(Said(JsonTarget, Core(items)));
            InputFrom(items, env, read).Some? ==>
              |InputFrom(items, env, read).value|
              == TextLength(items, json.Some?) + |HashedNames(FileNames(Said(ExternPath, items)))|
                 + |HashedNames(FileNames(LibsFound(items, env)))|
                 + match json case Some(path) => |read(path).value| case None => 0
  {
    var tj := Last(Said(JsonTarget, Core(items))).Some?;
    ConcatMore(Others(Core(items), tj), Sort(CfgsWritten(items)));
    SortLength(AtMost, CfgsWritten(items));
  }

  /** The flags whose values are not hashed, and `--target`, whose file may be. */
  predicate Skipped(name: string) {
    name == "--extern" || name == "-L" || name == "--check-cfg" || name == "--out-dir" || name == "--diagnostic-width" || name == "--target"
  }

  lemma OneLength(a: Argument, targetJson: bool)
    requires a.UnknownFlag? || (a.WithValue? && !Skipped(a.name) && !a.data.Color?)
    ensures TextLength([a], targetJson) == |Written(a)|
  {
    CoreOfOne(a);
    FirstHashed(a, [], targetJson);
    assert [a] + [] == [a] && [Written(a)][1..] == [] && [Written(a)] + [] == [Written(a)];
    assert Concat([Written(a)]) == Written(a) + "" == Written(a);
  }

  /** One quiet argument more makes the text longer by what is written of it. */
  lemma InsertedLength(i: seq<Argument>, a: Argument, j: seq<Argument>, env: Env, read: string -> Option<string>)
    requires Quiet(a) && (a.UnknownFlag? || (a.WithValue? && !Skipped(a.name) && !a.data.Color?))
    ensures var with, without := InputFrom(i + ([a] + j), env, read), InputFrom(i + j, env, read);
            (with.Some? <==> without.Some?) && (with.Some? ==> |with.value| == |without.value| + |Written(a)|)
  {
    QuietSaid(i, a, j);
    CoreOfOne(a);
    CoreMore(i, [a] + j);
    CoreMore([a], j);
    CoreMore(i, j);
    SaidAround(JsonTarget, Core(i), a, Core(j));
    assert Core([a]) == [] ==> [] + Core(j) == Core(j);
    var tj := Last(Said(JsonTarget, Core(i + j))).Some?;
    TextLengthMore(i, [a] + j, tj);
    TextLengthMore([a], j, tj);
    TextLengthMore(i, j, tj);
    OneLength(a, tj);
    InputLength(i + ([a] + j), env, read);
    InputLength(i + j, env, read);
  }

  /** Both lines are refused, or both are parsed and what is hashed of `c` is
      longer by `n` than what is hashed of `d`. */
  ghost predicate LongerBy(c: seq<string>, d: seq<string>, n: nat, env: Env) {
    && (ParseOf(ARGS, c, env).Parsed? <==> ParseOf(ARGS, d, env).Parsed?)
    && (ParseOf(ARGS, c, env).Parsed? ==> forall read :: Lengthened(ParseOf(ARGS, c, env).parsed, ParseOf(ARGS, d, env).parsed, n, read))
  }

  predicate Lengthened(p: ParsedArguments, q: ParsedArguments, n: nat, read: string -> Option<string>) {
    && (HashInput(p, read).Some? <==> HashInput(q, read).Some?)
    && (HashInput(p, read).Some? ==> |HashInput(p, read).value| == |HashInput(q, read).value| + n)
  }

  /** `c` reads as `d` with one quiet argument more. */
  lemma ReadsLonger(c: seq<string>, d: seq<string>, i: seq<Argument>, a: Argument, j: seq<Argument>, env: Env)
    requires ItemsOf(ARGS, c, env.probe).error == ItemsOf(ARGS, d, env.probe).error
    requires Discount(ItemsOf(ARGS, c, env.probe).items) == i + ([a] + j) && Discount(ItemsOf(ARGS, d, env.probe).items) == i + j
    requires Quiet(a) && (a.UnknownFlag? || (a.WithValue? && !Skipped(a.name) && !a.data.Color?))
    ensures LongerBy(c, d, |Written(a)|, env)
  {
    QuietSaid(i, a, j);
    ParsedExactlyWhen(ARGS, c, env);
    ParsedExactlyWhen(ARGS, d, env);
    if ParseOf(ARGS, c, env).Parsed? {
      forall read ensures Lengthened(ParseOf(ARGS, c, env).parsed, ParseOf(ARGS, d, env).parsed, |Written(a)|, read) {
        HashInputIs(c, env, read);
        HashInputIs(d, env, read);
        InsertedLength(i, a, j, env, read);
      }
    }
  }

  lemma InsertedIsHashed(x: seq<string>, word: seq<string>, a: Argument, y: seq<string>, env: Env)
    requires CommandLines.Whole(ARGS, x, env.probe) && CommandLines.Whole(ARGS, word, env.probe) && KeepsLead(x, word, [], y)
    requires ItemsOf(ARGS, word, env.probe).items == [a]
    requires Quiet(a) && (a.UnknownFlag? || (a.WithValue? && !Skipped(a.name) && !a.data.Color?))
    ensures LongerBy(x + (word + y), x + y, |Written(a)|, env)
  {
    var none: seq<string> := [];
    ItemsBetween(x, word, y, env.probe);
    ItemsBetween(x, none, y, env.probe);
    assert none + y == y;
    var j := ItemsOf(ARGS, y, env.probe).items;
    assert ItemsOf(ARGS, none, env.probe).items + j == j;
    ReadsLonger(x + (word + y), x + y, Discount(ItemsOf(ARGS, x, env.probe).items), a, j, env);
  }

  /** A flag the table does not know. */
  predicate NotListed(g: string) {
    "-" <= g && KindNamed(FlagPart(g).0) == None && BareNamed(g) == None
  }

  lemma OptimizeAndDebug()
    ensures NotListed("-g") && NotListed("-O")
  {
  }

  lemma UnknownReads(t: Table, kinds: Kinds, bares: Bares, g: string, probe: Probe)
    requires Fits(t, kinds, bares) && "-" <= g && kinds(FlagPart(g).0) == None && bares(g) == None
    ensures CommandLines.Whole(t, [g], probe) && ItemsOf(t, [g], probe).items == [UnknownFlag(g)]
  {
    FoundBySpelling(t, kinds, bares, g);
    assert [g][1..] == [];
    CommandLines.FirstReads(t, [g], probe);
  }

  lemma UnknownReadsHere(g: string, probe: Probe)
    requires NotListed(g)
    ensures CommandLines.Whole(ARGS, [g], probe) && ItemsOf(ARGS, [g], probe).items == [UnknownFlag(g)]
  {
    ArgsFit();
    UnknownReads(ARGS, KindNamed, BareNamed, g, probe);
  }

  lemma UnknownIsWritten(g: string)
    ensures Written(UnknownFlag(g)) == g
  {
    assert [g][1..] == [];
    assert Concat([g]) == g + "" == g;
  }

  /** A flag nobody knows, such as `-g` or `-O`, is always hashed: wherever it is
      put in, the hashed text is longer by it. */
  lemma UnknownFlagsAreHashed(x: seq<string>, g: string, y: seq<string>, env: Env)
    requires CommandLines.Whole(ARGS, x, env.probe) && NotListed(g) && KeepsLead(x, [g], [], y)
    ensures LongerBy(x + ([g] + y), x + y, |g|, env)
  {
    UnknownReadsHere(g, env.probe);
    UnknownIsWritten(g);
    InsertedIsHashed(x, [g], UnknownFlag(g), y, env);
  }

  lemma ValueIsWritten(name: string, data: ArgData)
    ensures Written(WithValue(name, data, Separated)) == name + IntoArg(data)
  {
    KeyCollisions.WrittenTwo(name, IntoArg(data));
  }

  predicate HashedValue(kind: Kind, v: string) {
    kind.PassThrough? || (kind.CodeGen? && v != "incremental" && !("incremental=" <= v) && v != "extra-filename")
  }

  lemma ValueQuiet(a: Argument, kind: Kind, v: string, probe: Probe)
    requires a.WithValue? && Create(kind, v, probe) == Ok(a.data) && HashedValue(kind, v)
    ensures Quiet(a) && IntoArg(a.data) == v && !a.data.Color?
  {
    SplitOnceParts(v, '=');
    if kind.CodeGen? && SplitOnce(v, '=').1.Some? { assert SplitOnce(v, '=').0 + "=" <= v; }
  }

  lemma ValueReads(t: Table, e: ArgInfo, v: string, probe: Probe) returns (a: Argument)
    requires Searchable(t) && e in t && WellNamed(e) && e.TakeArg? && HashedValue(e.kind, v)
    ensures CommandLines.Whole(t, [e.name, v], probe) && ItemsOf(t, [e.name, v], probe).items == [a]
    ensures a.WithValue? && a.name == e.name && Quiet(a) && !a.data.Color? && |Written(a)| == |e.name| + |v|
  {
    a := WithValue(e.name, Create(e.kind, v, probe).value, Separated);
    PairReads(t, e, v, probe);
    ValueQuiet(a, e.kind, v, probe);
    ValueIsWritten(e.name, a.data);
  }

  lemma EntryOf(name: string) returns (e: ArgInfo)
    requires KindNamed(name).Some?
    ensures e in ARGS && e.TakeArg? && e.name == name && e.kind == KindNamed(name).value && WellNamed(e)
  {
    Known(name);
    AllNamedRight();
    AllWellNamed();
    e :| e in ARGS && e.TakeArg? && e.name == name;
    assert NamedRight(e) && WellNamed(e);
  }

  lemma NamedReads(name: string, v: string, probe: Probe) returns (a: Argument)
    requires KindNamed(name).Some? && HashedValue(KindNamed(name).value, v)
    ensures CommandLines.Whole(ARGS, [name, v], probe) && ItemsOf(ARGS, [name, v], probe).items == [a]
    ensures a.WithValue? && a.name == name && Quiet(a) && !a.data.Color? && |Written(a)| == |name| + |v|
  {
    var e := EntryOf(name);
    ArgsSearchable();
    a := ValueReads(ARGS, e, v, probe);
  }

  lemma ValuedIsHashed(x: seq<string>, name: string, v: string, a: Argument, y: seq<string>, env: Env)
    requires CommandLines.Whole(ARGS, x, env.probe) && KeepsLead(x, [name, v], [], y) && !Skipped(name)
    requires CommandLines.Whole(ARGS, [name, v], env.probe) && ItemsOf(ARGS, [name, v], env.probe).items == [a]
    requires a.WithValue? && a.name == name && Quiet(a) && !a.data.Color? && |Written(a)| == |name| + |v|
    ensures LongerBy(x + ([name, v] + y), x + y, |name| + |v|, env)
  {
    InsertedIsHashed(x, [name, v], a, y, env);
  }

  /** So is every flag that is passed through, but for the lints that `--check-cfg`
      brings and the width of diagnostics. */
  lemma PassedFlagsAreHashed(x: seq<string>, flag: string, v: string, y: seq<string>, env: Env)
    requires CommandLines.Whole(ARGS, x, env.probe) && KeepsLead(x, [flag, v], [], y)
    requires flag in PASSED && flag != "--check-cfg" && flag != "--diagnostic-width"
    ensures LongerBy(x + ([flag, v] + y), x + y, |flag| + |v|, env)
  {
    PassedIsHashed(flag, v);
    var a := NamedReads(flag, v, env.probe);
    ValuedIsHashed(x, flag, v, a, y, env);
  }

  lemma PassedIsHashed(flag: string, v: string)
    requires flag in PASSED && flag != "--check-cfg" && flag != "--diagnostic-width"
    ensures !Skipped(flag) && KindNamed(flag).Some? && HashedValue(KindNamed(flag).value, v)
  {
  }

  /** And every option of code generation that may be cached. */
  lemma CodeGenIsHashed(x: seq<string>, flag: string, v: string, y: seq<string>, env: Env)
    requires CommandLines.Whole(ARGS, x, env.probe) && KeepsLead(x, [flag, v], [], y)
    requires flag == "-C" || flag == "--codegen"
    requires v != "incremental" && !("incremental=" <= v) && v != "extra-filename"
    ensures LongerBy(x + ([flag, v] + y), x + y, |flag| + |v|, env)
  {
    OptionIsHashed(flag, v);
    var a := NamedReads(flag, v, env.probe);
    ValuedIsHashed(x, flag, v, a, y, env);
  }

  lemma OptionIsHashed(flag: string, v: string)
    requires flag == "-C" || flag == "--codegen"
    requires v != "incremental" && !("incremental=" <= v) && v != "extra-filename"
    ensures !Skipped(flag) && KindNamed(flag).Some? && HashedValue(KindNamed(flag).value, v)
  {
  }
}
