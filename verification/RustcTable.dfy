/** The flags rustc accepts, in the order `search` relies on. */
module RustcTable {
  import opened Wrappers
  import opened Strings
  import opened ArgTable

  /** `take_arg!(name, .., CanBeSeparated(b'='), ..)`. */
  function Long(name: string, kind: Kind): ArgInfo {
    TakeArg(name, kind, CanBeSeparated(Some('=')))
  }

  /** `take_arg!(name, .., CanBeSeparated, ..)`. */
  function Short(name: string, kind: Kind): ArgInfo {
    TakeArg(name, kind, CanBeSeparated(None))
  }

  const ARGS: Table := [
    Flag("-", TooHardFlag),
    Long("--allow", PassThrough),
    Long("--cap-lints", PassThrough),
    Long("--cfg", PassThrough),
    Long("--check-cfg", PassThrough),
    Long("--codegen", CodeGen),
    Long("--color", Color),
    Long("--crate-name", CrateName),
    Long("--crate-type", CrateType),
    Long("--deny", PassThrough),
    Long("--diagnostic-width", PassThrough),
    Long("--edition", PassThrough),
    Long("--emit", Emit),
    Long("--env-set", PassThrough),
    Long("--error-format", PassThrough),
    Long("--explain", NotCompilation),
    Long("--extern", Extern),
    Long("--forbid", PassThrough),
    Long("--force-warn", PassThrough),
    Flag("--help", NotCompilationFlag),
    Long("--json", Json),
    Long("--out-dir", OutDir),
    Long("--pretty", NotCompilation),
    Long("--print", NotCompilation),
    Long("--remap-path-prefix", PassThrough),
    Long("--remap-path-scope", PassThrough),
    Long("--sysroot", TooHardPath),
    Long("--target", Target),
    Long("--unpretty", NotCompilation),
    Flag("--version", NotCompilationFlag),
    Long("--warn", PassThrough),
    Short("-A", PassThrough),
    Short("-C", CodeGen),
    Short("-D", PassThrough),
    Short("-F", PassThrough),
    Short("-L", LinkPath),
    Flag("-V", NotCompilationFlag),
    Short("-W", PassThrough),
    Short("-Z", Unstable),
    Short("-l", LinkLibrary),
    Short("-o", TooHardPath)
  ]

  /** Strings that agree up to `k` and are in order there. */
  predicate PartAt(a: string, b: string, k: nat) {
    && k <= |a| && k < |b|
    && (forall i | 0 <= i < k :: a[i] == b[i])
    && (k < |a| ==> a[k] < b[k])
  }

  /** A dash in front, values that may follow, and libraries by `-l` and `-L`. */
  predicate WellFormed(e: ArgInfo) {
    && e.name != "" && e.name[0] == '-'
    && (e.TakeArg? ==>
          && e.disposition.CanBeSeparated?
          && (e.kind.LinkLibrary? ==> e.name == "-l") && (e.kind.LinkPath? ==> e.name == "-L"))
  }

  predicate InOrder(items: Table, k: nat, at: nat) {
    k + 1 < |items| && PartAt(items[k].name, items[k + 1].name, at) && (at == |items[k].name| ==> items[k].Flag?)
  }

  lemma PartedInOrder(a: string, b: string, k: nat)
    requires PartAt(a, b, k)
    ensures Less(a, b) && (k < |a| ==> !(a < b))
  {
    assert a[..k] == b[..k];
    LessAfterPrefix(a[..k], a[k..], b[k..]);
    assert a == a[..k] + a[k..] && b == b[..k] + b[k..];
  }

  /** Where each flag parts from the next. */
  const PARTINGS: seq<nat> := [
    1, 2, 3, 3, 3, 4, 3, 8, 2, 3, 2, 3, 3, 3, 3, 4, 2, 5, 2, 2,
    2, 2, 4, 2, 13, 2, 2, 2, 2, 2, 1, 1, 1, 1, 1, 1, 1, 1, 1, 1
  ]

  lemma Neighbours1()
    ensures PartAt("-", "--allow", 1)
    ensures PartAt("--allow", "--cap-lints", 2)
    ensures PartAt("--cap-lints", "--cfg", 3)
    ensures PartAt("--cfg", "--check-cfg", 3)
    ensures PartAt("--check-cfg", "--codegen", 3)
    ensures PartAt("--codegen", "--color", 4)
    ensures PartAt("--color", "--crate-name", 3)
    ensures PartAt("--crate-name", "--crate-type", 8)
  {
  }

  lemma Range1(k: nat)
    requires 0 <= k < 8
    ensures InOrder(ARGS, k, PARTINGS[k])
  {
    Neighbours1();
  }

  lemma Neighbours2()
    ensures PartAt("--crate-type", "--deny", 2)
    ensures PartAt("--deny", "--diagnostic-width", 3)
    ensures PartAt("--diagnostic-width", "--edition", 2)
    ensures PartAt("--edition", "--emit", 3)
    ensures PartAt("--emit", "--env-set", 3)
    ensures PartAt("--env-set", "--error-format", 3)
    ensures PartAt("--error-format", "--explain", 3)
    ensures PartAt("--explain", "--extern", 4)
  {
  }

  lemma Range2(k: nat)
    requires 8 <= k < 16
    ensures InOrder(ARGS, k, PARTINGS[k])
  {
    Neighbours2();
  }

  lemma Neighbours3()
    ensures PartAt("--extern", "--forbid", 2)
    ensures PartAt("--forbid", "--force-warn", 5)
    ensures PartAt("--force-warn", "--help", 2)
    ensures PartAt("--help", "--json", 2)
    ensures PartAt("--json", "--out-dir", 2)
    ensures PartAt("--out-dir", "--pretty", 2)
    ensures PartAt("--pretty", "--print", 4)
    ensures PartAt("--print", "--remap-path-prefix", 2)
  {
  }

  lemma Range3(k: nat)
    requires 16 <= k < 24
    ensures InOrder(ARGS, k, PARTINGS[k])
  {
    Neighbours3();
  }

  lemma Neighbours4()
    ensures PartAt("--remap-path-prefix", "--remap-path-scope", 13)
    ensures PartAt("--remap-path-scope", "--sysroot", 2)
    ensures PartAt("--sysroot", "--target", 2)
    ensures PartAt("--target", "--unpretty", 2)
    ensures PartAt("--unpretty", "--version", 2)
    ensures PartAt("--version", "--warn", 2)
    ensures PartAt("--warn", "-A", 1)
    ensures PartAt("-A", "-C", 1)
  {
  }

  lemma Range4(k: nat)
    requires 24 <= k < 32
    ensures InOrder(ARGS, k, PARTINGS[k])
  {
    Neighbours4();
  }

  lemma Neighbours5()
    ensures PartAt("-C", "-D", 1)
    ensures PartAt("-D", "-F", 1)
    ensures PartAt("-F", "-L", 1)
    ensures PartAt("-L", "-V", 1)
    ensures PartAt("-V", "-W", 1)
    ensures PartAt("-W", "-Z", 1)
    ensures PartAt("-Z", "-l", 1)
    ensures PartAt("-l", "-o", 1)
  {
  }

  lemma Range5(k: nat)
    requires 32 <= k < 40
    ensures InOrder(ARGS, k, PARTINGS[k])
  {
    Neighbours5();
  }

  lemma ArgsInOrder(k: nat)
    requires k < 40
    ensures InOrder(ARGS, k, PARTINGS[k])
  {
    if k < 8 { Range1(k); }
    else if k < 16 { Range2(k); }
    else if k < 24 { Range3(k); }
    else if k < 32 { Range4(k); }
    else { Range5(k); }
  }

  lemma OrderedSearchable(items: Table, at: seq<nat>)
    requires |at| + 1 == |items| && forall k | 0 <= k < |at| :: InOrder(items, k, at[k])
    ensures Searchable(items)
  {
    forall k | 0 <= k < |items| - 1
      ensures Less(items[k].name, items[k + 1].name) && (Concatenable(items[k]) ==> !(items[k].name < items[k + 1].name))
    {
      assert InOrder(items, k, at[k]);
      PartedInOrder(items[k].name, items[k + 1].name, at[k]);
    }
    NeighboursSuffice(items);
  }

  lemma AllInOrder()
    ensures forall k | 0 <= k < |PARTINGS| :: InOrder(ARGS, k, PARTINGS[k])
  {
    forall k | 0 <= k < |PARTINGS| ensures InOrder(ARGS, k, PARTINGS[k]) {
      ArgsInOrder(k);
    }
  }

  /** The search is exact on this table. */
  lemma ArgsSearchable()
    ensures Searchable(ARGS)
  {
    AllInOrder();
    OrderedSearchable(ARGS, PARTINGS);
  }

  /** Every flag that takes a value may have it in the next argument. */
  predicate ValuesMayFollow(t: Table) {
    forall e <- t :: e.TakeArg? ==> e.disposition.CanBeSeparated?
  }

  lemma Formed1(k: nat)
    requires 0 <= k < 14
    ensures WellFormed(ARGS[k])
  {
  }

  lemma Formed2(k: nat)
    requires 14 <= k < 28
    ensures WellFormed(ARGS[k])
  {
  }

  lemma Formed3(k: nat)
    requires 28 <= k < 41
    ensures WellFormed(ARGS[k])
  {
  }

  lemma ArgsWellFormed()
    ensures forall e <- ARGS :: WellFormed(e)
  {
    forall k | 0 <= k < |ARGS| ensures WellFormed(ARGS[k]) {
      if k < 14 { Formed1(k); } else if k < 28 { Formed2(k); } else { Formed3(k); }
    }
  }

  lemma ArgsValuesMayFollow()
    ensures ValuesMayFollow(ARGS)
  {
    ArgsWellFormed();
    WellFormedMayFollow(ARGS);
  }

  lemma WellFormedMayFollow(t: Table)
    requires forall e <- t :: WellFormed(e)
    ensures ValuesMayFollow(t)
  {
  }
}
