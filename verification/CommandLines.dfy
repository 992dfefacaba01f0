/** Command lines in pieces: what one piece reads as does not depend on the
    others, and a reparse is stable exactly when the strings say so. */
module CommandLines {
  import opened Wrappers
  import Strings
  import opened ArgTable
  import opened RustcTable
  import opened RustcArgs
  import opened Parse
  import opened ParseMeaning
  import opened Reparse
  import opened Respelling

  /** A flag alone that would take its value from whatever came next. */
  predicate Waits(t: Table, args: seq<string>) {
    && |args| == 1
    && var found := Bisect(t, args[0]);
    && found.Some? && found.value.TakeArg? && found.value.name == args[0] && !found.value.disposition.Concatenated?
  }

  /** Every argument of `x` can be read, and the last waits for nothing. */
  predicate Whole(t: Table, x: seq<string>, probe: Probe)
    decreases |x|
  {
    x == [] ||
    (var p := Classify(t, x, probe); p.result.Ok? && !Waits(t, x) && Whole(t, p.rest, probe))
  }

  /** An argument that waits for nothing reads alike in front of anything. */
  lemma ReadsAlike(t: Table, args: seq<string>, after: seq<string>, probe: Probe)
    requires args != [] && !Waits(t, args)
    ensures var p := Classify(t, args, probe);
            Classify(t, args[..|args| - |p.rest|] + after, probe) == p.(rest := after)
  {
    var p := Classify(t, args, probe);
    TakesOneOrTwo(t, args, probe);
    var whole := args[..|args| - |p.rest|] + after;
    assert whole[0] == args[0];
    if p.rest == args[1..] {
      assert whole[1..] == after;
    } else {
      assert whole[1] == args[1] && whole[1..][1..] == after;
    }
  }

  lemma FirstReads(t: Table, args: seq<string>, probe: Probe)
    requires args != [] && Classify(t, args, probe).result.Ok?
    ensures var p := Classify(t, args, probe);
            var rest := ItemsOf(t, p.rest, probe);
            ItemsOf(t, args, probe) == Items([Normalize(p.result.value)] + rest.items, rest.error)
  {
  }

  lemma {:induction false} WholeReads(t: Table, x: seq<string>, probe: Probe)
    requires Whole(t, x, probe)
    ensures ItemsOf(t, x, probe).error == None && (x != [] ==> ItemsOf(t, x, probe).items != [])
    decreases |x|
  {
    if x != [] { WholeReads(t, Classify(t, x, probe).rest, probe); }
  }

  function After(first: seq<Argument>, rest: Items): Items {
    Items(first + rest.items, rest.error)
  }

  /** A whole piece in front of another: the two are read one after the other. */
  lemma {:induction false} WholeAppend(t: Table, x: seq<string>, y: seq<string>, probe: Probe)
    requires Whole(t, x, probe)
    ensures ItemsOf(t, x + y, probe) == After(ItemsOf(t, x, probe).items, ItemsOf(t, y, probe))
    decreases |x|
  {
    if x == [] {
      assert x + y == y;
    } else {
      var p := Classify(t, x, probe);
      TakesOneOrTwo(t, x, probe);
      var head := x[..|x| - |p.rest|];
      assert x == head + p.rest && x + y == head + (p.rest + y);
      ReadsAlike(t, x, p.rest + y, probe);
      FirstReads(t, x, probe);
      FirstReads(t, x + y, probe);
      WholeAppend(t, p.rest, y, probe);
      Strings.Assoc([Normalize(p.result.value)], ItemsOf(t, p.rest, probe).items, ItemsOf(t, y, probe).items);
    }
  }

  /** What follows an argument that does not wait can be changed. */
  lemma WholeFirst(t: Table, args: seq<string>, after: seq<string>, probe: Probe)
    requires args != [] && Classify(t, args, probe).result.Ok? && Whole(t, after, probe)
    requires Classify(t, args, probe).rest != [] || !Waits(t, args)
    ensures var p := Classify(t, args, probe);
            var whole := args[..|args| - |p.rest|] + after;
            Whole(t, whole, probe) && ItemsOf(t, whole, probe) == After([Normalize(p.result.value)], ItemsOf(t, after, probe))
  {
    var p := Classify(t, args, probe);
    TakesOneOrTwo(t, args, probe);
    ReadsAlike(t, args, after, probe);
    var whole := args[..|args| - |p.rest|] + after;
    assert whole[0] == args[0] && whole != [];
    assert Classify(t, whole, probe) == p.(rest := after);
    FirstReads(t, whole, probe);
    if p.rest == args[1..] && p.rest != [] {
      NotWaiting(t, args, probe);
    }
    assert p.rest == [] && after == [] ==> whole == args;
  }

  lemma NotWaiting(t: Table, args: seq<string>, probe: Probe)
    requires |args| >= 2 && Classify(t, args, probe).rest == args[1..]
    ensures !Waits(t, args[..1])
  {
    assert |args[1..]| != |args[2..]|;
  }

  lemma Regroup<T>(whole: seq<T>, rest: seq<T>, y: seq<T>)
    requires |rest| <= |whole| && rest == whole[|whole| - |rest|..]
    ensures whole + y == whole[..|whole| - |rest|] + (rest + y)
  {
    var head := whole[..|whole| - |rest|];
    assert whole == head + rest;
    Strings.Assoc(head, rest, y);
  }

  /** Where a piece of what comes later lies in the whole. */
  lemma Later<T>(whole: seq<T>, rest: seq<T>, n: nat)
    requires |rest| <= |whole| && rest == whole[|whole| - |rest|..] && |whole| - |rest| <= n <= |whole|
    ensures var first := |whole| - |rest|;
            whole[..n] == whole[..first] + rest[..n - first] && whole[n..] == rest[n - first..]
  {
  }

  lemma OneLater<T>(one: T, rest: seq<T>, k: nat)
    requires 0 < k <= |rest| + 1
    ensures ([one] + rest)[..k] == [one] + rest[..k - 1] && ([one] + rest)[k..] == rest[k - 1..]
  {
  }

  /** Two whole pieces are a whole one. */
  lemma {:induction false} WholeConcat(t: Table, x: seq<string>, y: seq<string>, probe: Probe)
    requires Whole(t, x, probe) && Whole(t, y, probe)
    ensures Whole(t, x + y, probe)
    decreases |x|
  {
    if x == [] {
      assert x + y == y;
    } else {
      var p := Classify(t, x, probe);
      TakesOneOrTwo(t, x, probe);
      WholeConcat(t, p.rest, y, probe);
      WholeFirst(t, x, p.rest + y, probe);
      Regroup(x, p.rest, y);
    }
  }

  /** The `k`-th argument begins at the `n`-th string. */
  ghost predicate CutsAt(t: Table, args: seq<string>, k: nat, n: nat, probe: Probe) {
    && n < |args| && k <= |ItemsOf(t, args, probe).items| && Whole(t, args[..n], probe)
    && ItemsOf(t, args[..n], probe).items == ItemsOf(t, args, probe).items[..k]
    && ItemsOf(t, args[n..], probe) == ItemsOf(t, args, probe).(items := ItemsOf(t, args, probe).items[k..])
  }

  lemma CutStart(t: Table, args: seq<string>, probe: Probe)
    requires args != []
    ensures CutsAt(t, args, 0, 0, probe)
  {
    assert args[..0] == [] && args[0..] == args;
  }

  lemma CutFirst(t: Table, args: seq<string>, k: nat, n: nat, probe: Probe)
    requires args != [] && k > 0 && Classify(t, args, probe).result.Ok?
    requires var first := |args| - |Classify(t, args, probe).rest|;
             first <= n && CutsAt(t, Classify(t, args, probe).rest, k - 1, n - first, probe)
    ensures CutsAt(t, args, k, n, probe)
  {
    var p := Classify(t, args, probe);
    TakesOneOrTwo(t, args, probe);
    var head, rest := args[..|args| - |p.rest|], ItemsOf(t, p.rest, probe).items;
    Later(args, p.rest, n);
    WholeFirst(t, args, p.rest[..n - |head|], probe);
    FirstReads(t, args, probe);
    OneLater(Normalize(p.result.value), rest, k);
  }

  lemma {:induction false} Cut(t: Table, args: seq<string>, k: nat, probe: Probe) returns (n: nat)
    requires k < |ItemsOf(t, args, probe).items|
    ensures CutsAt(t, args, k, n, probe)
    decreases |args|
  {
    if k == 0 {
      n := 0;
      CutStart(t, args, probe);
    } else {
      var p := Classify(t, args, probe);
      FirstReads(t, args, probe);
      n := Cut(t, p.rest, k - 1, probe);
      n := n + |args| - |p.rest|;
      CutFirst(t, args, k, n, probe);
    }
  }

  /** The line ends in `-l` or `-L`, and no flag before takes that for a value. */
  predicate EndsInBareLink(t: Table, args: seq<string>, probe: Probe) {
    && args != [] && Whole(t, args[..|args| - 1], probe)
    && (args[|args| - 1] == "-l" || args[|args| - 1] == "-L")
  }

  /** What of rustc's table matters here. */
  ghost predicate HasLibraryFlags(t: Table) {
    && Searchable(t) && (forall e <- t :: WellFormed(e))
    && Short("-l", Kind.LinkLibrary) in t && Short("-L", Kind.LinkPath) in t
  }

  lemma ArgsHasLibraryFlags()
    ensures HasLibraryFlags(ARGS)
  {
    ArgsSearchable();
    ArgsWellFormed();
    assert ARGS[35] == Short("-L", Kind.LinkPath) && ARGS[39] == Short("-l", Kind.LinkLibrary);
  }

  lemma BareLinkReads(t: Table, arg: string, probe: Probe)
    requires HasLibraryFlags(t) && (arg == "-l" || arg == "-L")
    ensures ItemsOf(t, [arg], probe).error == None
    ensures |ItemsOf(t, [arg], probe).items| == 1 && BareLink(ItemsOf(t, [arg], probe).items[0])
  {
    var e := if arg == "-l" then Short("-l", Kind.LinkLibrary) else Short("-L", Kind.LinkPath);
    FindsItself(t, e, arg);
    assert [arg][1..] == [];
    var p := Classify(t, [arg], probe);
    assert p.rest == [] && p.result.Ok? && BareLink(p.result.value);
    FirstReads(t, [arg], probe);
  }

  lemma BareLinkAlone(t: Table, args: seq<string>, a: Argument, probe: Probe)
    requires (forall e <- t :: WellFormed(e)) && ItemsOf(t, args, probe) == Items([a], None) && BareLink(a)
    ensures args == ["-l"] || args == ["-L"]
  {
    FirstReads(t, args, probe);
    assert ItemsOf(t, args, probe).items[0] == Normalize(Classify(t, args, probe).result.value);
    BareLinkOfOne(t, args, probe);
  }

  lemma BareLinkOfOne(t: Table, args: seq<string>, probe: Probe)
    requires (forall e <- t :: WellFormed(e)) && args != [] && Classify(t, args, probe).result.Ok?
    requires BareLink(Normalize(Classify(t, args, probe).result.value))
    ensures args == ["-l"] || args == ["-L"]
  {
    var found := Bisect(t, args[0]);
    if found.Some? && found.value.TakeArg? {
      var e := found.value;
      assert e in t && WellFormed(e);
      assert args[0] == e.name && args[1..] == [];
      assert e.kind.LinkLibrary? || e.kind.LinkPath?;
      assert args == [args[0]];
    }
  }

  lemma BareLinkFromArgs(t: Table, args: seq<string>, probe: Probe)
    requires HasLibraryFlags(t) && EndsInBareLink(t, args, probe)
    ensures EndsBare(ItemsOf(t, args, probe).items)
  {
    var pre, last := args[..|args| - 1], args[|args| - 1];
    assert args == pre + [last];
    WholeAppend(t, pre, [last], probe);
    BareLinkReads(t, last, probe);
  }

  lemma BareLinkToArgs(t: Table, args: seq<string>, probe: Probe)
    requires (forall e <- t :: WellFormed(e)) && ItemsOf(t, args, probe).error == None && EndsBare(ItemsOf(t, args, probe).items)
    ensures EndsInBareLink(t, args, probe)
  {
    var items := ItemsOf(t, args, probe).items;
    var k := |items| - 1;
    var n := Cut(t, args, k, probe);
    var tail := args[n..];
    assert tail == ["-l"] || tail == ["-L"] by {
      assert items[k..] == [items[k]];
      BareLinkAlone(t, tail, items[k], probe);
    }
    assert n == |args| - 1 && args[n] == tail[0];
  }

  /** Dropping colours and a leading `rustc` leaves the last argument. */
  lemma LastStays(t: Table, items: seq<Argument>, arguments: seq<Argument>, probe: Probe)
    requires arguments == WithoutColors(Discount(items)) && arguments != [] && Readable(t, Discount(items), probe)
    ensures EndsBare(arguments) <==> EndsBare(items)
  {
    var d := Discount(items);
    LastKept(d);
    if EndsBare(arguments) {
      var a := arguments[|arguments| - 1];
      ColorsGone(d);
      assert a in d;
      var i: nat :| i < |d| && d[i] == a;
      BareIsLast(t, d, probe, i);
    }
  }

  lemma {:induction false} LastKept(items: seq<Argument>)
    ensures items != [] && !IsColor(items[|items| - 1]) ==>
              WithoutColors(items) != [] && WithoutColors(items)[|WithoutColors(items)| - 1] == items[|items| - 1]
  {
    if |items| == 1 {
      assert items[1..] == [];
    } else if items != [] {
      LastKept(items[1..]);
    }
  }

  lemma {:induction false} FirstKept(items: seq<Argument>) returns (j: nat)
    requires WithoutColors(items) != []
    ensures j < |items| && items[j] == WithoutColors(items)[0] && forall i | 0 <= i < j :: IsColor(items[i])
  {
    if IsColor(items[0]) {
      var k := FirstKept(items[1..]);
      j := k + 1;
    } else {
      j := 0;
    }
  }

  lemma {:induction false} AllColors(items: seq<Argument>, rest: seq<Argument>)
    requires forall a <- items :: IsColor(a)
    ensures WithoutColors(items + rest) == WithoutColors(rest)
  {
    if items == [] {
      assert items + rest == rest;
    } else {
      assert (items + rest)[1..] == items[1..] + rest;
      AllColors(items[1..], rest);
    }
  }

  /** An input `rustc` that only colours, and perhaps one `rustc` to discount,
      come before. */
  ghost predicate RustcLeads(t: Table, args: seq<string>, probe: Probe) {
    exists n :: RustcLeadsAt(t, args, n, probe)
  }

  predicate RustcLeadsAt(t: Table, args: seq<string>, n: int, probe: Probe) {
    && 0 < n < |args| && args[n] == "rustc" && Whole(t, args[..n], probe)
    && forall a <- Discount(ItemsOf(t, args[..n], probe).items) :: IsColor(a)
  }

  lemma NoFlagMatchesRustc(t: Table)
    requires forall e <- t :: WellFormed(e)
    ensures Bisect(t, "rustc") == None
  {
    if Bisect(t, "rustc").Some? {
      var e := Bisect(t, "rustc").value;
      assert WellFormed(e);
      MatchesArePrefixes(e, "rustc");
    }
  }

  lemma RustcReads(t: Table, args: seq<string>, probe: Probe)
    requires (forall e <- t :: WellFormed(e)) && args != []
    ensures args[0] == "rustc" <==> ItemsOf(t, args, probe).items != [] && ItemsOf(t, args, probe).items[0] == Raw("rustc")
  {
    RustcClassifies(t, args, probe);
    if Classify(t, args, probe).result.Ok? { FirstReads(t, args, probe); }
  }

  lemma RustcClassifies(t: Table, args: seq<string>, probe: Probe)
    requires (forall e <- t :: WellFormed(e)) && args != []
    ensures args[0] == "rustc" ==> Classify(t, args, probe).result == Ok(Raw("rustc"))
    ensures Classify(t, args, probe).result.Ok? && Normalize(Classify(t, args, probe).result.value) == Raw("rustc") ==> args[0] == "rustc"
  {
    NoFlagMatchesRustc(t);
  }

  lemma RustcLeadsIf(t: Table, args: seq<string>, probe: Probe)
    requires forall e <- t :: WellFormed(e)
    requires var kept := WithoutColors(Discount(ItemsOf(t, args, probe).items)); kept != [] && kept[0] == Raw("rustc")
    ensures RustcLeads(t, args, probe)
  {
    var items := ItemsOf(t, args, probe).items;
    var d := Discount(items);
    var j := FirstKept(d);
    var k := j + |items| - |d|;
    assert items[k] == d[j];
    var n := Cut(t, args, k, probe);
    assert items[k..][0] == Raw("rustc") && args[n..][0] == args[n];
    RustcReads(t, args[n..], probe);
    assert k > 0;
    DiscountPrefix(items, k);
    assert RustcLeadsAt(t, args, n, probe);
  }

  lemma DiscountPrefix(items: seq<Argument>, k: nat)
    requires 0 < k <= |items|
    ensures Discount(items[..k]) <= Discount(items) && |Discount(items[..k])| == k + |Discount(items)| - |items|
  {
  }

  lemma RustcLeadsOnlyIf(t: Table, args: seq<string>, n: int, probe: Probe)
    requires (forall e <- t :: WellFormed(e)) && RustcLeadsAt(t, args, n, probe)
    ensures var kept := WithoutColors(Discount(ItemsOf(t, args, probe).items)); kept != [] && kept[0] == Raw("rustc")
  {
    assert args == args[..n] + args[n..];
    var pre, rest := ItemsOf(t, args[..n], probe).items, ItemsOf(t, args[n..], probe).items;
    WholeAppend(t, args[..n], args[n..], probe);
    WholeReads(t, args[..n], probe);
    RustcReads(t, args[n..], probe);
    RustcAfterColors(pre, rest);
  }

  lemma RustcAfterColors(pre: seq<Argument>, rest: seq<Argument>)
    requires pre != [] && (forall a <- Discount(pre) :: IsColor(a)) && rest != [] && rest[0] == Raw("rustc")
    ensures var kept := WithoutColors(Discount(pre + rest)); kept != [] && kept[0] == Raw("rustc")
  {
    assert Discount(pre + rest) == Discount(pre) + rest;
    AllColors(Discount(pre), rest);
  }

  lemma LastByArgs(t: Table, args: seq<string>, probe: Probe)
    requires HasLibraryFlags(t) && ValuesMayFollow(t) && ItemsOf(t, args, probe).error == None
    requires WithoutColors(Discount(ItemsOf(t, args, probe).items)) != []
    ensures EndsBare(WithoutColors(Discount(ItemsOf(t, args, probe).items))) <==> EndsInBareLink(t, args, probe)
  {
    var items := ItemsOf(t, args, probe).items;
    ItemsReadable(t, args, probe);
    LastStays(t, items, WithoutColors(Discount(items)), probe);
    if EndsBare(items) { BareLinkToArgs(t, args, probe); }
    if EndsInBareLink(t, args, probe) { BareLinkFromArgs(t, args, probe); }
  }

  lemma FirstByArgs(t: Table, args: seq<string>, probe: Probe)
    requires forall e <- t :: WellFormed(e)
    requires WithoutColors(Discount(ItemsOf(t, args, probe).items)) != []
    ensures WithoutColors(Discount(ItemsOf(t, args, probe).items))[0] == Raw("rustc") <==> RustcLeads(t, args, probe)
  {
    if WithoutColors(Discount(ItemsOf(t, args, probe).items))[0] == Raw("rustc") { RustcLeadsIf(t, args, probe); }
    if n :| RustcLeadsAt(t, args, n, probe) { RustcLeadsOnlyIf(t, args, n, probe); }
  }

  lemma ConditionByArgs(t: Table, args: seq<string>, probe: Probe)
    requires HasLibraryFlags(t) && ValuesMayFollow(t) && ItemsOf(t, args, probe).error == None
    requires WithoutColors(Discount(ItemsOf(t, args, probe).items)) != []
    ensures var kept := WithoutColors(Discount(ItemsOf(t, args, probe).items));
            kept[0] != Raw("rustc") && !BareLink(kept[|kept| - 1])
            <==> !RustcLeads(t, args, probe) && !EndsInBareLink(t, args, probe)
  {
    FirstByArgs(t, args, probe);
    LastByArgs(t, args, probe);
  }

  /** The condition for a stable reparse, read off the command line: `rustc` is
      not the input that leads it, and it does not end in a bare `-l` or `-L`. */
  lemma ReparseIsStableByArgs(args: seq<string>, env: Env)
    requires ParseOf(ARGS, args, env).Parsed?
    ensures var p := ParseOf(ARGS, args, env).parsed;
            ParseOf(ARGS, EmitAll(p.arguments), env) == Parsed(p.(colorMode := Auto))
            <==> !RustcLeads(ARGS, args, env.probe) && !EndsInBareLink(ARGS, args, env.probe)
  {
    ReparseIsStable(args, env);
    ArgsHasLibraryFlags();
    ArgsValuesMayFollow();
    assert ItemsOf(ARGS, args, env.probe).error == None by { ParsedExactlyWhen(ARGS, args, env); }
    ArgumentsAreItems(ARGS, args, env);
    ConditionByArgs(ARGS, args, env.probe);
  }
}
