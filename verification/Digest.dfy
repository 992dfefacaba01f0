/** What is fed to the hasher for a parsed command line. The hasher absorbs
    strings (their UTF-8 bytes) by appending them. */
module Digest {
  import opened Wrappers
  import opened Strings
  import opened Paths
  import opened RustcArgs
  import opened Parse

  function FlagStr(a: Argument): Option<string> {
    if a.Flag? || a.WithValue? then Some(a.name) else None
  }

  predicate NeverHashed(flag: string) {
    flag == "--extern" || flag == "-L" || flag == "--check-cfg" || flag == "--out-dir" || flag == "--diagnostic-width"
  }

  predicate ShouldHash(a: Argument, targetJson: bool) {
    match FlagStr(a)
    case None => true
    case Some(flag) => !NeverHashed(flag) && !(targetJson && flag == "--target")
  }

  predicate IsCfg(a: Argument) {
    FlagStr(a) == Some("--cfg")
  }

  function Concat(parts: seq<string>): string {
    if parts == [] then "" else parts[0] + Concat(parts[1..])
  }

  /** An argument as it would be typed, without any separators. */
  function Written(a: Argument): string {
    Concat(Emitted(a))
  }

  function Kept(items: seq<Argument>, targetJson: bool): seq<Argument> {
    if items == [] then []
    else if ShouldHash(items[0], targetJson) then [items[0]] + Kept(items[1..], targetJson)
    else Kept(items[1..], targetJson)
  }

  function CfgsWritten(items: seq<Argument>): seq<string> {
    if items == [] then []
    else if IsCfg(items[0]) then [Written(items[0])] + CfgsWritten(items[1..])
    else CfgsWritten(items[1..])
  }

  function OthersWritten(items: seq<Argument>): seq<string> {
    if items == [] then []
    else if IsCfg(items[0]) then OthersWritten(items[1..])
    else [Written(items[0])] + OthersWritten(items[1..])
  }

  /** The kept arguments in order, then the `--cfg` ones sorted. */
  function HashedArgv(items: seq<Argument>, targetJson: bool): string {
    var kept := Kept(items, targetJson);
    Concat(OthersWritten(kept) + Sort(CfgsWritten(kept)))
  }

  function Terminated(names: seq<string>): string {
    if names == [] then "" else names[0] + "\0" + Terminated(names[1..])
  }

  function HashedNames(names: seq<string>): string {
    Terminated(Sort(names))
  }

  /** Everything absorbed, unless the target's JSON file cannot be read. */
  function HashInput(p: ParsedArguments, read: string -> Option<string>): Option<string> {
    var common := HashedArgv(p.arguments, p.targetJson.Some?) + HashedNames(FileNames(p.externs)) + HashedNames(FileNames(p.staticlibs));
    match p.targetJson
    case None => Some(common)
    case Some(path) => match read(path) case None => None case Some(contents) => Some(common + contents)
  }

  class Hasher {
    var absorbed: string

    constructor ()
      ensures absorbed == ""
    {
      absorbed := "";
    }

    method Update(data: string)
      modifies this
      ensures absorbed == old(absorbed) + data
    {
      absorbed := absorbed + data;
    }
  }

  lemma {:induction false} ConcatMore(parts: seq<string>, more: seq<string>)
    ensures Concat(parts + more) == Concat(parts) + Concat(more)
  {
    if parts == [] {
      assert parts + more == more;
    } else {
      assert (parts + more)[1..] == parts[1..] + more;
      ConcatMore(parts[1..], more);
    }
  }

  /** `join`. */
  method Join(parts: seq<string>) returns (joined: string)
    ensures joined == Concat(parts)
  {
    joined := "";
    for i := 0 to |parts|
      invariant joined == Concat(parts[..i])
    {
      assert parts[..i + 1] == parts[..i] + [parts[i]];
      ConcatMore(parts[..i], [parts[i]]);
      assert Concat([parts[i]]) == parts[i] + Concat([]);
      joined := joined + parts[i];
    }
    assert parts[..|parts|] == parts;
  }

  /** One more argument is kept for sorting, for its place, or not at all. */
  lemma {:induction false} KeptMore(items: seq<Argument>, a: Argument, targetJson: bool)
    ensures var before, after := Kept(items, targetJson), Kept(items + [a], targetJson);
            && CfgsWritten(after) == CfgsWritten(before) + (if ShouldHash(a, targetJson) && IsCfg(a) then [Written(a)] else [])
            && OthersWritten(after) == OthersWritten(before) + if ShouldHash(a, targetJson) && !IsCfg(a) then [Written(a)] else []
  {
    if items == [] {
      assert [a][1..] == [] && items + [a] == [a];
    } else {
      assert (items + [a])[0] == items[0] && (items + [a])[1..] == items[1..] + [a];
      KeptMore(items[1..], a, targetJson);
      if ShouldHash(items[0], targetJson) {
        WrittenFirst(items[0], Kept(items[1..], targetJson));
        WrittenFirst(items[0], Kept(items[1..] + [a], targetJson));
      }
    }
  }

  lemma WrittenFirst(a: Argument, rest: seq<Argument>)
    ensures CfgsWritten([a] + rest) == (if IsCfg(a) then [Written(a)] else []) + CfgsWritten(rest)
    ensures OthersWritten([a] + rest) == (if IsCfg(a) then [] else [Written(a)]) + OthersWritten(rest)
  {
    assert ([a] + rest)[1..] == rest;
  }

  method HashArgv(p: ParsedArguments, m: Hasher)
    modifies m
    ensures m.absorbed == old(m.absorbed) + HashedArgv(p.arguments, p.targetJson.Some?)
  {
    var targetJson := p.targetJson.Some?;
    var sortables: seq<string>, rest: seq<string> := [], [];
    for i := 0 to |p.arguments|
      invariant m.absorbed == old(m.absorbed)
      invariant sortables == CfgsWritten(Kept(p.arguments[..i], targetJson))
      invariant rest == OthersWritten(Kept(p.arguments[..i], targetJson))
    {
      var a := p.arguments[i];
      KeptMore(p.arguments[..i], a, targetJson);
      assert p.arguments[..i + 1] == p.arguments[..i] + [a];
      if ShouldHash(a, targetJson) {
        var written := Join(Emitted(a));
        if IsCfg(a) {
          sortables := sortables + [written];
        } else {
          rest := rest + [written];
        }
      }
    }
    assert p.arguments[..|p.arguments|] == p.arguments;
    var bytes := Join(rest + Sort(sortables));
    m.Update(bytes);
  }

  lemma {:induction false} TerminatedMore(names: seq<string>, n: string)
    ensures Terminated(names + [n]) == Terminated(names) + n + "\0"
  {
    if names == [] {
      assert [n][1..] == [];
    } else {
      assert (names + [n])[1..] == names[1..] + [n];
      TerminatedMore(names[1..], n);
    }
  }

  method HashBasenames(names: seq<string>, m: Hasher)
    modifies m
    ensures m.absorbed == old(m.absorbed) + HashedNames(names)
  {
    var sorted := Sort(names);
    for i := 0 to |sorted|
      invariant m.absorbed == old(m.absorbed) + Terminated(sorted[..i])
    {
      assert sorted[..i + 1] == sorted[..i] + [sorted[i]];
      TerminatedMore(sorted[..i], sorted[i]);
      m.Update(sorted[i]);
      m.Update("\0");
    }
    assert sorted[..|sorted|] == sorted;
  }

  method HashRustcArgs(p: ParsedArguments, read: string -> Option<string>, m: Hasher) returns (ok: bool)
    modifies m
    ensures ok <==> HashInput(p, read).Some?
    ensures ok ==> m.absorbed == old(m.absorbed) + HashInput(p, read).value
  {
    ghost var start, argv, externs := m.absorbed, HashedArgv(p.arguments, p.targetJson.Some?), HashedNames(FileNames(p.externs));
    ghost var libs := HashedNames(FileNames(p.staticlibs));
    HashArgv(p, m);
    HashBasenames(FileNames(p.externs), m);
    HashBasenames(FileNames(p.staticlibs), m);
    Assoc(start, argv, externs);
    Assoc(start, argv + externs, libs);
    if p.targetJson.Some? {
      var contents := read(p.targetJson.value);
      if contents.None? {
        return false;
      }
      m.Update(contents.value);
      Assoc(start, argv + externs + libs, contents.value);
    }
    ok := true;
  }

  predicate NulFree(names: seq<string>) {
    forall n <- names :: '\0' !in n
  }

  lemma {:induction false} TerminatedDecodes(a: seq<string>, b: seq<string>)
    requires NulFree(a) && NulFree(b) && Terminated(a) == Terminated(b)
    ensures a == b
    decreases |a|
  {
    if a != [] && b != [] {
      FirstSplit(a[0], b[0], Terminated(a[1..]), Terminated(b[1..]), '\0');
      TerminatedDecodes(a[1..], b[1..]);
      assert a == [a[0]] + a[1..] && b == [b[0]] + b[1..];
    }
  }

  lemma SortedNulFree(names: seq<string>)
    requires NulFree(names)
    ensures NulFree(Sort(names))
  {
    SortSorts(names);
    forall n <- Sort(names) ensures '\0' !in n {
      assert n in multiset(Sort(names));
    }
  }

  /** Two collections of file names are hashed alike exactly when they are the
      same names, each as often. */
  lemma BasenamesCanonical(a: seq<string>, b: seq<string>)
    requires NulFree(a) && NulFree(b)
    ensures HashedNames(a) == HashedNames(b) <==> multiset(a) == multiset(b)
  {
    SortedNulFree(a);
    SortedNulFree(b);
    SortCanonical(a, b);
    if HashedNames(a) == HashedNames(b) { TerminatedDecodes(Sort(a), Sort(b)); }
  }

  /** Files of some names, wherever they lie, are hashed alike exactly when the
      names are the same, each as often. */
  lemma FilesCanonical(dirs: seq<string>, names: seq<string>, dirs': seq<string>, names': seq<string>)
    requires |dirs| == |names| && |dirs'| == |names'| && NulFree(names) && NulFree(names')
    requires (forall n <- names :: PlainName(n)) && forall n <- names' :: PlainName(n)
    ensures HashedNames(FileNames(Beneath(dirs, names))) == HashedNames(FileNames(Beneath(dirs', names')))
            <==> multiset(names) == multiset(names')
  {
    FileNamesOf(dirs, names);
    FileNamesOf(dirs', names');
    BasenamesCanonical(names, names');
  }
}
