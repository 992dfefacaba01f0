/** A command line read the plain way: flags told apart by their spelling alone,
    each with the string that is its value. What is searched for in the table,
    typed and normalized comes to the same. */
module CommandWords {
  import opened Wrappers
  import opened Strings
  import opened ArgTable
  import opened RustcArgs
  import CommandLines

  datatype Word =
    | Text(text: string)
    | Unknown(text: string)
    | Bare(name: string, what: FlagKind)
    | Valued(name: string, kind: Kind, value: string)
    | Dangling(name: string)

  /** Which flags take a value and of what kind, and which take none. */
  type Kinds = string -> Option<Kind>
  type Bares = string -> Option<FlagKind>

  /** The flag that a string would be, and a value joined to it: a long flag ends
      at `=`, a short one after its letter. */
  function FlagPart(arg: string): (string, Option<string>) {
    if "--" <= arg then SplitOnce(arg, '=')
    else if |arg| > 2 then (arg[..2], Some(arg[2..]))
    else (arg, None)
  }

  /** The first word, and how many strings it takes. */
  function FirstWord(kinds: Kinds, bares: Bares, args: seq<string>): (r: (Word, nat))
    requires args != []
    ensures 1 <= r.1 <= |args|
  {
    var (name, joined) := FlagPart(args[0]);
    match kinds(name)
    case Some(kind) =>
      if joined.Some? then (Valued(name, kind, joined.value), 1)
      else if |args| > 1 then (Valued(name, kind, args[1]), 2)
      else (if "--" <= name then Dangling(name) else Valued(name, kind, ""), 1)
    case None =>
      (if bares(args[0]).Some? then Bare(args[0], bares(args[0]).value)
       else if "-" <= args[0] then Unknown(args[0])
       else Text(args[0]), 1)
  }

  function WordsOf(kinds: Kinds, bares: Bares, args: seq<string>): seq<Word>
    decreases |args|
  {
    if args == [] then []
    else
      var (w, n) := FirstWord(kinds, bares, args);
      [w] + WordsOf(kinds, bares, args[n..])
  }

  /** Long flags start with two dashes and may be joined by `=`, short ones are a
      dash and a letter. */
  predicate WellNamed(e: ArgInfo) {
    match e
    case Flag(name, _) => if "--" <= name then '=' !in name else |name| <= 2
    case TakeArg(name, _, d) =>
      if "--" <= name then '=' !in name && d == CanBeSeparated(Some('='))
      else |name| == 2 && name[0] == '-' && name[1] != '-' && d == CanBeSeparated(None)
  }

  /** The table has these flags and no others. */
  ghost predicate Fits(t: Table, kinds: Kinds, bares: Bares) {
    && Searchable(t)
    && (forall e <- t :: WellNamed(e))
    && (forall e <- t :: if e.TakeArg? then kinds(e.name) == Some(e.kind) else bares(e.name) == Some(e.what) && kinds(e.name) == None)
    && (forall name :: kinds(name).Some? ==> exists e <- t :: e.TakeArg? && e.name == name)
    && (forall name :: bares(name).Some? ==> exists e <- t :: e.Flag? && e.name == name)
  }

  lemma LongParts(name: string, arg: string)
    requires "--" <= name && '=' !in name
    ensures arg == name ==> FlagPart(arg) == (name, None)
    ensures name + "=" <= arg ==> FlagPart(arg) == (name, Some(arg[|name| + 1..]))
    ensures FlagPart(arg).0 == name && "--" <= arg ==> arg == name || name + "=" <= arg
  {
    if arg == name {
      assert "--" <= arg;
      SplitOnceParts(arg, '=');
      assert SplitOnce(arg, '=').1 == None;
    }
    if name + "=" <= arg {
      var rest := arg[|name| + 1..];
      assert arg == name + ['='] + rest;
      assert "--" <= arg;
      SplitOnceJoin(name, '=', rest);
    }
    if "--" <= arg && FlagPart(arg).0 == name {
      SplitOnceParts(arg, '=');
      if FlagPart(arg).1.Some? { assert name + "=" == name + ['=']; }
    }
  }

  /** A value flag matches an argument exactly if the argument's flag part is its
      name. */
  lemma MatchIsFlagPart(e: ArgInfo, arg: string)
    requires WellNamed(e) && e.TakeArg?
    ensures Matches(e, arg) <==> FlagPart(arg).0 == e.name
    ensures Matches(e, arg) ==> (FlagPart(arg).1.None? <==> arg == e.name)
    ensures Matches(e, arg) && arg != e.name ==> FlagPart(arg).1.value == arg[if "--" <= e.name then |e.name| + 1 else |e.name|..]
  {
    var name := e.name;
    if "--" <= name {
      LongParts(name, arg);
      if Matches(e, arg) && arg != name { assert name + "=" <= arg; }
      if name + "=" <= arg { assert arg[|name|] == '=' && name <= arg; }
      assert FlagPart(arg).0 <= arg by { SplitOnceParts(arg, '='); }
    } else if "--" <= arg {
      SplitOnceParts(arg, '=');
      assert arg[..2] == "--" && FlagPart(arg).0 <= arg;
    }
  }

  /** What searching the table finds is what the spelling says. */
  lemma FoundBySpelling(t: Table, kinds: Kinds, bares: Bares, arg: string)
    requires Fits(t, kinds, bares)
    ensures match Bisect(t, arg)
            case None => kinds(FlagPart(arg).0) == None && bares(arg) == None
            case Some(Flag(name, what)) => name == arg && bares(arg) == Some(what) && kinds(FlagPart(arg).0) == None
            case Some(TakeArg(name, kind, _)) => name == FlagPart(arg).0 && kinds(name) == Some(kind)
  {
    BisectFinds(t, arg);
    var found := Bisect(t, arg);
    if found.Some? {
      var e := found.value;
      if e.TakeArg? { MatchIsFlagPart(e, arg); } else if "--" <= arg { LongParts(arg, arg); }
    } else {
      NothingMatches(t, arg);
      forall e | e in t && e.TakeArg? ensures e.name != FlagPart(arg).0 { MatchIsFlagPart(e, arg); }
    }
  }

  lemma NothingMatches(t: Table, arg: string)
    requires Searchable(t) && Bisect(t, arg) == None
    ensures forall e <- t :: !Matches(e, arg)
  {
    BisectFinds(t, arg);
    assert NoMatch(t, arg);
  }

  /** `a` is how a word is held once it has been read. */
  predicate Holds(a: Argument, w: Word, probe: Probe) {
    match w
    case Text(text) => a == Raw(text)
    case Unknown(text) => a == UnknownFlag(text)
    case Bare(name, what) =>
      a == Argument.Flag(name, if what.TooHardFlag? then ArgData.TooHardFlag else ArgData.NotCompilationFlag)
    case Valued(name, kind, v) => a.WithValue? && a.name == name && Create(kind, v, probe) == Ok(a.data)
    case Dangling(_) => false
  }

  /** A flag at the very end may miss its value, and an extern its path. */
  predicate CanBeRead(w: Word) {
    !w.Dangling? && (w.Valued? && w.kind.Extern? ==> '=' in w.value)
  }

  lemma OnlyExternsFail(kind: Kind, v: string, probe: Probe)
    ensures Create(kind, v, probe).Ok? <==> (kind.Extern? ==> '=' in v)
  {
    SplitOnceParts(v, '=');
  }

  lemma JoinedIsRead(e: ArgInfo, arg: string, rest: seq<string>, probe: Probe)
    requires WellNamed(e) && e.TakeArg? && Matches(e, arg) && FlagPart(arg).1.Some?
    ensures var p, w := Process(e, arg, rest, probe), Valued(e.name, e.kind, FlagPart(arg).1.value);
            && (p.result.Ok? <==> CanBeRead(w))
            && (p.result.Ok? ==> Holds(Normalize(p.result.value), w, probe) && p.rest == rest)
  {
    MatchIsFlagPart(e, arg);
    OnlyExternsFail(e.kind, FlagPart(arg).1.value, probe);
  }

  lemma ApartIsRead(e: ArgInfo, rest: seq<string>, probe: Probe)
    requires WellNamed(e) && e.TakeArg? && rest != []
    ensures var p, w := Process(e, e.name, rest, probe), Valued(e.name, e.kind, rest[0]);
            && (p.result.Ok? <==> CanBeRead(w))
            && (p.result.Ok? ==> Holds(Normalize(p.result.value), w, probe) && p.rest == rest[1..])
  {
    OnlyExternsFail(e.kind, rest[0], probe);
  }

  lemma LastIsRead(e: ArgInfo, probe: Probe)
    requires WellNamed(e) && e.TakeArg?
    ensures var p, w := Process(e, e.name, [], probe), if "--" <= e.name then Dangling(e.name) else Valued(e.name, e.kind, "");
            && (p.result.Ok? <==> CanBeRead(w))
            && (p.result.Ok? ==> Holds(Normalize(p.result.value), w, probe) && p.rest == [])
  {
    OnlyExternsFail(e.kind, "", probe);
  }

  /** The first argument is read exactly if its word can be, and then as that. */
  lemma FirstIsRead(t: Table, kinds: Kinds, bares: Bares, args: seq<string>, probe: Probe)
    requires Fits(t, kinds, bares) && args != []
    ensures var p, (w, n) := Classify(t, args, probe), FirstWord(kinds, bares, args);
            && (p.result.Ok? <==> CanBeRead(w))
            && (p.result.Ok? ==> Holds(Normalize(p.result.value), w, probe) && p.rest == args[n..])
  {
    var arg, found := args[0], Bisect(t, args[0]);
    FoundBySpelling(t, kinds, bares, arg);
    if found.Some? && found.value.TakeArg? {
      var e := found.value;
      MatchIsFlagPart(e, arg);
      if FlagPart(arg).1.Some? {
        JoinedIsRead(e, arg, args[1..], probe);
      } else if |args| > 1 {
        ApartIsRead(e, args[1..], probe);
        assert args[1..][1..] == args[2..];
      } else {
        LastIsRead(e, probe);
      }
    }
  }

  /** Read as far as all words can be, word by word. */
  predicate Aligned(all: Items, words: seq<Word>, probe: Probe) {
    && (all.error == None <==> forall w <- words :: CanBeRead(w))
    && |all.items| <= |words| && (all.error == None ==> |all.items| == |words|)
    && forall i | 0 <= i < |all.items| :: Holds(all.items[i], words[i], probe)
  }

  lemma AlignedStep(a: Argument, w: Word, all: Items, words: seq<Word>, probe: Probe)
    requires Aligned(all, words, probe) && CanBeRead(w) && Holds(a, w, probe)
    ensures Aligned(Items([a] + all.items, all.error), [w] + words, probe)
  {
    assert forall x <- [w] + words :: x == w || x in words;
    assert w in [w] + words && forall x <- words :: x in [w] + words;
  }

  /** A whole command line is read exactly if all of its words can be, and then
      word by word. */
  lemma {:induction false} ItemsAreWords(t: Table, kinds: Kinds, bares: Bares, args: seq<string>, probe: Probe)
    requires Fits(t, kinds, bares)
    ensures Aligned(ItemsOf(t, args, probe), WordsOf(kinds, bares, args), probe)
    decreases |args|
  {
    if args != [] {
      var p := Classify(t, args, probe);
      var (w, n) := FirstWord(kinds, bares, args);
      var rest := WordsOf(kinds, bares, args[n..]);
      FirstIsRead(t, kinds, bares, args, probe);
      if p.result.Ok? {
        CommandLines.FirstReads(t, args, probe);
        ItemsAreWords(t, kinds, bares, args[n..], probe);
        AlignedStep(Normalize(p.result.value), w, ItemsOf(t, args[n..], probe), rest, probe);
      } else {
        assert w in [w] + rest;
      }
    }
  }
}
