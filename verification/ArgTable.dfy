/** Tables of command-line flags and how a key is looked up in one: a binary
    search that compares with prefixes in mind, against a plain scan. */
module ArgTable {
  import opened Wrappers
  import opened Strings

  type Delimiter = Option<char>

  datatype Disposition =
    | Separated
    | CanBeConcatenated(delimiter: Delimiter)
    | CanBeSeparated(delimiter: Delimiter)
    | Concatenated(delimiter: Delimiter)

  /** What becomes of a flag's value. */
  datatype Kind =
    | TooHardPath | NotCompilation | LinkLibrary | LinkPath | Emit | Extern | Color | Json | CrateName | CrateType
    | OutDir | CodeGen | PassThrough | Target | Unstable

  datatype FlagKind = TooHardFlag | NotCompilationFlag

  datatype ArgInfo = Flag(name: string, what: FlagKind) | TakeArg(name: string, kind: Kind, disposition: Disposition)

  type Table = seq<ArgInfo>

  /** The flag may have its value in the same argument. */
  predicate Concatenable(a: ArgInfo) {
    a.TakeArg? && !a.disposition.Separated?
  }

  /** `key` is, or could be, an argument for this flag. */
  predicate Matches(a: ArgInfo, key: string) {
    || a.name == key
    || (&& Concatenable(a)
        && a.name <= key
        && match a.disposition.delimiter
           case None => true
           case Some(d) => |key| > |a.name| && key[|a.name|] == d)
  }

  datatype Ordering = Lower | Equal | Greater

  function Compare(a: string, b: string): Ordering {
    if a == b then Equal else if Less(a, b) then Lower else Greater
  }

  /** `cmp_arg`. */
  function CmpArg(a: ArgInfo, key: string): Ordering {
    if Concatenable(a) && a.name <= key then
      match a.disposition.delimiter
      case None => Equal
      case Some(d) =>
        if |key| > |a.name| then
          var c := key[|a.name|];
          if c < d then Lower else if c == d then Equal else Greater
        else Compare(a.name, key)
    else Compare(a.name, key)
  }

  lemma EqualMeansMatch(a: ArgInfo, key: string)
    ensures CmpArg(a, key).Equal? <==> Matches(a, key)
  {
  }

  /** `search`: where entries nest, an entry further right is tried first. */
  function Bisect(items: Table, key: string): (found: Option<ArgInfo>)
    ensures found.Some? ==> found.value in items && Matches(found.value, key)
    decreases |items|
  {
    if items == [] then None
    else
      var middle := |items| / 2;
      match CmpArg(items[middle], key)
      case Equal =>
        var right := Bisect(items[middle + 1..], key);
        if right.Some? then right else Some(items[middle])
      case Greater => Bisect(items[..middle], key)
      case Lower => Bisect(items[middle + 1..], key)
  }

  method Search(items: Table, key: string) returns (found: Option<ArgInfo>)
    ensures found == Bisect(items, key)
    decreases |items|
  {
    var slice := items;
    while slice != []
      invariant |slice| <= |items| && Bisect(slice, key) == Bisect(items, key)
      decreases |slice|
    {
      var middle := |slice| / 2;
      match CmpArg(slice[middle], key) {
        case Equal =>
          var right := Search(slice[middle + 1..], key);
          return if right.Some? then right else Some(slice[middle]);
        case Greater => slice := slice[..middle];
        case Lower => slice := slice[middle + 1..];
      }
    }
    found := None;
  }

  /** The reference: the last entry that matches. */
  function Scan(items: Table, key: string): Option<ArgInfo> {
    if items == [] then None
    else
      var last := items[|items| - 1];
      if Matches(last, key) then Some(last) else Scan(items[..|items| - 1], key)
  }

  predicate StrictlySorted(items: Table) {
    forall i, j | 0 <= i < j < |items| :: Less(items[i].name, items[j].name)
  }

  /** No flag that can be followed by its value at once begins another flag. */
  predicate PrefixFree(items: Table) {
    forall i, j | 0 <= i < |items| && 0 <= j < |items| && Concatenable(items[i]) :: !(items[i].name < items[j].name)
  }

  predicate Searchable(items: Table) {
    StrictlySorted(items) && PrefixFree(items)
  }

  /** Two prefixes of one string are comparable. */
  lemma PrefixesNest(a: string, b: string, key: string)
    requires a <= key && b <= key && a != b
    ensures a < b || b < a
  {
    if |a| <= |b| { assert a == key[..|a|] == b[..|a|]; } else { assert b == key[..|b|] == a[..|b|]; }
  }

  /** What lies between a string and an extension of it extends it too. */
  lemma {:induction false} Between(a: string, b: string, key: string)
    requires a <= key && Less(a, b) && Less(b, key)
    ensures a < b
    decreases |a|
  {
    if a != "" {
      assert a[0] == key[0] == b[0];
      assert a[1..] <= key[1..];
      Between(a[1..], b[1..], key[1..]);
      assert a == [a[0]] + a[1..] && b == [b[0]] + b[1..];
    }
  }

  lemma MatchesArePrefixes(a: ArgInfo, key: string)
    requires Matches(a, key)
    ensures a.name <= key && (a.name != key ==> Concatenable(a))
  {
  }

  /** At most one entry of a searchable table matches. */
  lemma OneMatch(items: Table, key: string, i: nat, j: nat)
    requires Searchable(items) && i < |items| && j < |items| && Matches(items[i], key) && Matches(items[j], key)
    ensures i == j
  {
    var a, b := items[i].name, items[j].name;
    if i != j {
      LessIrreflexive(a);
      assert a != b;
      PrefixesNest(a, b, key);
    }
  }

  /** Where the comparison points away from an entry, none matches. */
  lemma NothingOnThatSide(items: Table, key: string, m: nat, j: nat)
    requires Searchable(items) && m < |items| && j < |items|
    requires (CmpArg(items[m], key).Greater? && m <= j) || (CmpArg(items[m], key).Lower? && j <= m)
    ensures !Matches(items[j], key)
  {
    EqualMeansMatch(items[m], key);
    if Matches(items[j], key) {
      var s, n := items[m].name, items[j].name;
      LessIrreflexive(s);
      assert j != m && s != n;
      MatchesArePrefixes(items[j], key);
      if n < key { PrefixLess(n, key); }
      if s <= key {
        PrefixesNest(s, n, key);
        if s < n { PrefixLess(s, n); } else { PrefixLess(n, s); }
        if Less(s, n) && Less(n, s) { LessAsymmetric(s, n); }
        if s < key { PrefixLess(s, key); LessAsymmetric(s, key); }
      } else {
        LessTotal(s, key);
        if Less(s, key) {
          if n != key { Between(n, s, key); } else { LessAsymmetric(s, n); }
        } else {
          if n != key { LessTrans(n, key, s); }
          LessAsymmetric(n, s);
        }
      }
    }
  }

  predicate NoMatch(items: Table, key: string) {
    forall j | 0 <= j < |items| :: !Matches(items[j], key)
  }

  /** `found` is an entry that matches, or nothing if none does. */
  predicate Finds(items: Table, key: string, found: Option<ArgInfo>) {
    match found
    case None => NoMatch(items, key)
    case Some(a) => Matches(a, key) && a in items
  }

  lemma {:induction false} ScanFinds(items: Table, key: string)
    ensures Finds(items, key, Scan(items, key))
  {
    if items != [] && !Matches(items[|items| - 1], key) {
      ScanFinds(items[..|items| - 1], key);
    }
  }

  lemma HalvesSearchable(items: Table, m: nat)
    requires Searchable(items) && m < |items|
    ensures Searchable(items[..m]) && Searchable(items[m + 1..])
  {
  }

  lemma {:induction false} BisectFinds(items: Table, key: string)
    requires Searchable(items)
    ensures Finds(items, key, Bisect(items, key))
    decreases |items|
  {
    if items != [] {
      var m := |items| / 2;
      HalvesSearchable(items, m);
      BisectFinds(items[..m], key);
      BisectFinds(items[m + 1..], key);
      EqualMeansMatch(items[m], key);
      assert CmpArg(items[m], key).Greater? && NoMatch(items[..m], key) ==> NoMatch(items, key) by { AwayFrom(items, key, m); }
      assert CmpArg(items[m], key).Lower? && NoMatch(items[m + 1..], key) ==> NoMatch(items, key) by { AwayFrom(items, key, m); }
    }
  }

  lemma AwayFrom(items: Table, key: string, m: nat)
    requires Searchable(items) && m < |items|
    ensures CmpArg(items[m], key).Greater? && NoMatch(items[..m], key) ==> NoMatch(items, key)
    ensures CmpArg(items[m], key).Lower? && NoMatch(items[m + 1..], key) ==> NoMatch(items, key)
  {
    if (CmpArg(items[m], key).Greater? && NoMatch(items[..m], key))
      || (CmpArg(items[m], key).Lower? && NoMatch(items[m + 1..], key)) {
      forall j | 0 <= j < |items| ensures !Matches(items[j], key) {
        if CmpArg(items[m], key).Greater? {
          if j < m { assert items[j] == items[..m][j]; } else { NothingOnThatSide(items, key, m, j); }
        } else {
          if j > m { assert items[j] == items[m + 1..][j - m - 1]; } else { NothingOnThatSide(items, key, m, j); }
        }
      }
    }
  }

  /** On a searchable table the binary search is the scan. */
  lemma SearchIsScan(items: Table, key: string)
    requires Searchable(items)
    ensures Bisect(items, key) == Scan(items, key)
  {
    BisectFinds(items, key);
    ScanFinds(items, key);
    if Bisect(items, key).Some? && Scan(items, key).Some? {
      var i :| 0 <= i < |items| && items[i] == Bisect(items, key).value;
      var j :| 0 <= j < |items| && items[j] == Scan(items, key).value;
      OneMatch(items, key, i, j);
    }
  }

  /** Looking up a flag by any argument that matches it finds that flag. */
  lemma ScanFindsThis(items: Table, key: string, a: ArgInfo)
    requires Searchable(items) && a in items && Matches(a, key)
    ensures Scan(items, key) == Some(a)
  {
    ScanFinds(items, key);
    var i :| 0 <= i < |items| && items[i] == a;
    var j :| 0 <= j < |items| && items[j] == Scan(items, key).value;
    OneMatch(items, key, i, j);
  }

  /** The condition is needed: a flag that takes its value at once, two more
      that begin with it, and a key in between, and the search misses what the
      scan finds. */
  lemma NestedFlagsAreMissed(a: string, b: string, c: string, key: string)
    requires a < key && Less(a, b) && Less(b, key) && Less(key, c)
    ensures var items := [TakeArg(a, PassThrough, Concatenated(None)),
                          TakeArg(b, PassThrough, Separated), TakeArg(c, PassThrough, Separated)];
            StrictlySorted(items) && Scan(items, key) == Some(items[0]) && Bisect(items, key) == None
  {
    var first := TakeArg(a, PassThrough, Concatenated(None));
    var second, third := TakeArg(b, PassThrough, Separated), TakeArg(c, PassThrough, Separated);
    LessTrans(b, key, c);
    LessTrans(a, b, c);
    LessIrreflexive(key);
    LessAsymmetric(key, c);
    assert [first, second, third][2..] == [third];
    assert Bisect([third], key) == None by { assert [third][..0] == []; }
    assert Scan([first], key) == Some(first);
    assert Scan([first, second], key) == Some(first) by { assert [first, second][..1] == [first]; }
    assert [first, second, third][..2] == [first, second];
  }

  lemma SearchCanMiss()
    ensures exists items, key :: StrictlySorted(items) && Scan(items, key).Some? && Bisect(items, key).None?
  {
    PrefixLess("-f", "-fa");
    LessAfterPrefix("-f", "a", "b");
    LessAfterPrefix("-f", "b", "c");
    assert "-f" + "a" == "-fa" && "-f" + "b" == "-fb" && "-f" + "c" == "-fc";
    NestedFlagsAreMissed("-f", "-fa", "-fc", "-fb");
  }

  /** In a sorted table it is enough to look at neighbours. */
  lemma {:induction false} NeighboursSorted(items: Table, i: nat, j: nat)
    requires forall k | 0 <= k < |items| - 1 :: Less(items[k].name, items[k + 1].name)
    requires i < j < |items|
    ensures Less(items[i].name, items[j].name)
    decreases j
  {
    if i < j - 1 {
      NeighboursSorted(items, i, j - 1);
      LessTrans(items[i].name, items[j - 1].name, items[j].name);
    }
  }

  lemma NeighboursSuffice(items: Table)
    requires forall k | 0 <= k < |items| - 1 :: Less(items[k].name, items[k + 1].name)
    requires forall k | 0 <= k < |items| - 1 && Concatenable(items[k]) :: !(items[k].name < items[k + 1].name)
    ensures Searchable(items)
  {
    forall i, j | 0 <= i < j < |items| ensures Less(items[i].name, items[j].name) {
      NeighboursSorted(items, i, j);
    }
    forall i, j | 0 <= i < |items| && 0 <= j < |items| && Concatenable(items[i]) ensures !(items[i].name < items[j].name) {
      if items[i].name < items[j].name {
        PrefixLess(items[i].name, items[j].name);
        if j < i {
          LessAsymmetric(items[i].name, items[j].name);
        } else if i + 1 < j {
          Between(items[i].name, items[i + 1].name, items[j].name);
        }
      }
    }
  }
}
