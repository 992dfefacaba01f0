/** Paths as strings with `/` between components. */
module Paths {
  import opened Wrappers
  import opened Strings

  /** `Path::join`. */
  function PathJoin(a: string, b: string): string {
    if "/" <= b then b
    else if a == "" || a[|a| - 1] == '/' then a + b
    else a + "/" + b
  }

  function Named(parts: seq<string>): seq<string> {
    if parts == [] then []
    else (if parts[0] == "" || parts[0] == "." then [] else [parts[0]]) + Named(parts[1..])
  }

  lemma {:induction false} NamedConcat(a: seq<string>, b: seq<string>)
    ensures Named(a + b) == Named(a) + Named(b)
  {
    if a == [] {
      assert a + b == b;
    } else {
      assert (a + b)[1..] == a[1..] + b;
      NamedConcat(a[1..], b);
    }
  }

  /** `Path::file_name`: the last component, unless it is `..`. */
  function FileName(path: string): Option<string> {
    var parts := Named(Split(path, '/'));
    if parts == [] || parts[|parts| - 1] == ".." then None else Some(parts[|parts| - 1])
  }

  function FileNames(paths: seq<string>): seq<string> {
    if paths == [] then []
    else (match FileName(paths[0]) case None => [] case Some(n) => [n]) + FileNames(paths[1..])
  }

  /** A name that a file can have in its directory. */
  predicate PlainName(n: string) {
    n != "" && n != "." && n != ".." && '/' !in n
  }

  lemma NameParts(n: string)
    requires '/' !in n
    ensures Named(Split(n, '/')) == if n == "" || n == "." then [] else [n]
  {
    SplitNone(n, '/');
    assert [n][1..] == [];
  }

  /** The file name is what stands behind the last slash, however long the path,
      and whether or not slashes follow it; `..` is nobody's name. */
  lemma FileNameIs(dir: string, n: string, slash: bool)
    requires '/' !in n
    ensures var tail := if slash then n + "/" else n;
            (PlainName(n) ==> FileName(dir + "/" + tail) == Some(n) && FileName(tail) == Some(n))
            && (n == ".." ==> FileName(dir + "/" + tail) == None && FileName(tail) == None)
  {
    var tail := if slash then n + "/" else n;
    NameParts(n);
    SlashesDropped(n);
    NamesConcat(dir, tail);
    assert dir + "/" + tail == dir + ['/'] + tail;
  }

  lemma SlashesDropped(n: string)
    ensures Named(Split(n + "/", '/')) == Named(Split(n, '/'))
  {
    NamesConcat(n, "");
    NameParts("");
    assert n + ['/'] + "" == n + "/" && Named(Split(n, '/')) + [] == Named(Split(n, '/'));
  }

  lemma {:induction false} FileNamesOf(dirs: seq<string>, names: seq<string>)
    requires |dirs| == |names| && forall n <- names :: PlainName(n)
    ensures FileNames(Beneath(dirs, names)) == names
  {
    if names != [] {
      assert PlainName(names[0]) && forall n <- names[1..] :: n in names;
      FileNameIs(dirs[0], names[0], false);
      FileNamesOf(dirs[1..], names[1..]);
      assert Beneath(dirs, names)[1..] == Beneath(dirs[1..], names[1..]);
      assert names == [names[0]] + names[1..];
    }
  }

  /** Each name in its directory. */
  function Beneath(dirs: seq<string>, names: seq<string>): seq<string>
    requires |dirs| == |names|
  {
    seq(|names|, i requires 0 <= i < |names| => dirs[i] + "/" + names[i])
  }

  /** An absolute path stays as it is; any other goes on where the first ends. */
  lemma JoinedParts(a: string, b: string)
    ensures "/" <= b ==> PathJoin(a, b) == b
    ensures !("/" <= b) ==> Named(Split(PathJoin(a, b), '/')) == Named(Split(a, '/')) + Named(Split(b, '/'))
  {
    if !("/" <= b) {
      if a == "" {
        NameParts("");
        assert Named(Split(a, '/')) + Named(Split(b, '/')) == Named(Split(b, '/')) && a + b == b;
      } else if a[|a| - 1] == '/' {
        var c := a[..|a| - 1];
        assert a == c + ['/'] + "" && a + b == c + ['/'] + b;
        NamesConcat(c, b);
        NamesConcat(c, "");
        NameParts("");
        assert Named(Split(c, '/')) + [] == Named(Split(c, '/'));
      } else {
        NamesConcat(a, b);
      }
    }
  }

  /** How `Path` orders components: the root, `.`, `..`, then names. */
  function Rank(part: string): nat {
    if part == "/" then 0 else if part == "." then 1 else if part == ".." then 2 else 3
  }

  predicate PartLess(a: string, b: string) {
    Rank(a) < Rank(b) || (Rank(a) == Rank(b) && Less(a, b))
  }

  /** What a path begins with before its named components. */
  function Start(path: string): seq<string> {
    if "/" <= path then ["/"] else if Split(path, '/')[0] == "." then ["."] else []
  }

  /** Two paths are equal as paths exactly when these are. */
  function Components(path: string): seq<string> {
    Start(path) + Named(Split(path, '/'))
  }

  lemma NamesConcat(a: string, b: string)
    ensures Named(Split(a + ['/'] + b, '/')) == Named(Split(a, '/')) + Named(Split(b, '/'))
  {
    SplitConcat(a, '/', b);
    NamedConcat(Split(a, '/'), Split(b, '/'));
  }

  /** How a path begins is settled before its first slash. */
  lemma StartConcat(a: string, b: string, c: string)
    ensures Start(a + ['/'] + b) == Start(a + ['/'] + c)
  {
    SplitConcat(a, '/', b);
    SplitConcat(a, '/', c);
    assert (a + ['/'] + b)[0] == (a + ['/'] + c)[0];
    assert "/" <= a + ['/'] + b <==> (a + ['/'] + b)[0] == '/';
    assert "/" <= a + ['/'] + c <==> (a + ['/'] + c)[0] == '/';
  }

  /** A folder's components, and those of a path within it. */
  lemma ComponentsConcat(a: string, b: string)
    ensures Components(a + ['/'] + b) == Components(a + ['/'] + "") + Named(Split(b, '/'))
  {
    var names := Named(Split(a, '/'));
    NamesConcat(a, b);
    NamesConcat(a, "");
    StartConcat(a, b, "");
    assert Named(Split("", '/')) == [] && names + [] == names;
    Assoc(Start(a + ['/'] + ""), names, Named(Split(b, '/')));
  }

  predicate PartsAtMost(a: seq<string>, b: seq<string>) {
    a == [] || (b != [] && (PartLess(a[0], b[0]) || (a[0] == b[0] && PartsAtMost(a[1..], b[1..]))))
  }

  predicate PathAtMost(a: string, b: string) {
    PartsAtMost(Components(a), Components(b))
  }

  lemma PartLessTrans(a: string, b: string, c: string)
    requires PartLess(a, b) && PartLess(b, c)
    ensures PartLess(a, c)
  {
    if Less(a, b) && Less(b, c) { LessTrans(a, b, c); }
  }

  lemma {:induction false} PartsTrans(a: seq<string>, b: seq<string>, c: seq<string>)
    requires PartsAtMost(a, b) && PartsAtMost(b, c)
    ensures PartsAtMost(a, c)
    decreases |a|
  {
    if a != [] {
      if PartLess(a[0], b[0]) && PartLess(b[0], c[0]) {
        PartLessTrans(a[0], b[0], c[0]);
      } else if a[0] == b[0] == c[0] && PartsAtMost(a[1..], b[1..]) && PartsAtMost(b[1..], c[1..]) {
        PartsTrans(a[1..], b[1..], c[1..]);
      }
    }
  }

  lemma {:induction false} PartsTotal(a: seq<string>, b: seq<string>)
    ensures PartsAtMost(a, b) || PartsAtMost(b, a)
    decreases |a|
  {
    if a != [] && b != [] {
      LessTotal(a[0], b[0]);
      if a[0] == b[0] { PartsTotal(a[1..], b[1..]); }
    }
  }

  lemma PathTrans(a: string, b: string, c: string)
    requires PathAtMost(a, b) && PathAtMost(b, c)
    ensures PathAtMost(a, c)
  {
    PartsTrans(Components(a), Components(b), Components(c));
  }

  lemma PathAtMostPreorder()
    ensures Preorder(PathAtMost)
  {
    forall a, b ensures PathAtMost(a, b) || PathAtMost(b, a) { PartsTotal(Components(a), Components(b)); }
    forall a, b, c | PathAtMost(a, b) && PathAtMost(b, c) ensures PathAtMost(a, c) { PathTrans(a, b, c); }
  }

  lemma {:induction false} AfterSameParts(c: seq<string>, a: seq<string>, b: seq<string>)
    ensures PartsAtMost(c + a, c + b) <==> PartsAtMost(a, b)
  {
    if c == [] {
      assert c + a == a && c + b == b;
    } else {
      LessIrreflexive(c[0]);
      assert (c + a)[1..] == c[1..] + a && (c + b)[1..] == c[1..] + b;
      AfterSameParts(c[1..], a, b);
    }
  }

  /** Files of one directory are ordered by their names; a directory comes before
      what lies in it. */
  lemma SiblingsByName(dir: string, a: string, b: string)
    requires PlainName(a) && PlainName(b)
    ensures PathAtMost(dir + "/" + a, dir + "/" + b) <==> a == b || Less(a, b)
    ensures PathAtMost(dir + "/", dir + "/" + a) && !PathAtMost(dir + "/" + a, dir + "/")
  {
    var base := Components(dir + ['/'] + "");
    ComponentsConcat(dir, a);
    ComponentsConcat(dir, b);
    NameParts(a);
    NameParts(b);
    AfterSameParts(base, [a], [b]);
    AfterSameParts(base, [], [a]);
    AfterSameParts(base, [a], []);
    assert base + [] == base && dir + ['/'] + "" == dir + "/";
  }

  /** `Vec<PathBuf>::sort`. */
  function SortPaths(s: seq<string>): seq<string> {
    SortBy(PathAtMost, s)
  }

  lemma SortPathsSorts(s: seq<string>)
    ensures SortedBy(PathAtMost, SortPaths(s)) && multiset(SortPaths(s)) == multiset(s)
  {
    PathAtMostPreorder();
    SortBySorts(PathAtMost, s);
  }
}
