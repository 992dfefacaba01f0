/** `--flag value` or `--flag=value`, `-X value` or `-Xvalue`: no difference. */
module Respelling {
  import opened Wrappers
  import opened ArgTable
  import opened RustcTable
  import opened RustcArgs
  import opened Parse

  /** The first argument is a flag that may be written together with the value
      that follows it. */
  predicate Joinable(t: Table, args: seq<string>) {
    && |args| >= 2
    && var found := Bisect(t, args[0]);
    && found.Some? && found.value.TakeArg? && found.value.name == args[0]
    && (found.value.disposition.CanBeSeparated? || found.value.disposition.CanBeConcatenated?)
    && (found.value.disposition.delimiter.Some? || args[1] != "")
  }

  function Joined(t: Table, args: seq<string>): string
    requires Joinable(t, args)
  {
    var d := Bisect(t, args[0]).value.disposition.delimiter;
    args[0] + (if d.Some? then [d.value] else "") + args[1]
  }

  /** The command line with any of its flags written together with their
      values: `joins[k]` says whether to join the k-th argument. */
  function Respell(t: Table, args: seq<string>, joins: seq<bool>, probe: Probe): seq<string>
    decreases |args|
  {
    if args == [] then []
    else
      var rest := Classify(t, args, probe).rest;
      var others := if joins == [] then [] else joins[1..];
      if joins != [] && joins[0] && Joinable(t, args) then [Joined(t, args)] + Respell(t, rest, others, probe)
      else args[..|args| - |rest|] + Respell(t, rest, others, probe)
  }

  /** An argument takes one string or two. */
  lemma TakesOneOrTwo(t: Table, args: seq<string>, probe: Probe)
    requires args != []
    ensures var p := Classify(t, args, probe);
            || p.rest == args[1..]
            || (|args| >= 2 && p.rest == args[2..])
  {
  }

  /** What an argument reads as does not depend on what follows it. */
  lemma Local(t: Table, args: seq<string>, after: seq<string>, probe: Probe)
    requires args != []
    requires var rest := Classify(t, args, probe).rest; rest == [] ==> after == []
    ensures var p := Classify(t, args, probe);
            Classify(t, args[..|args| - |p.rest|] + after, probe) == p.(rest := after)
  {
    var p := Classify(t, args, probe);
    TakesOneOrTwo(t, args, probe);
    var head := args[..|args| - |p.rest|];
    var whole := head + after;
    assert whole[0] == args[0];
    if p.rest == args[1..] {
      assert whole[1..] == after;
    } else {
      assert whole[1] == args[1] && whole[1..][1..] == after;
    }
  }

  /** The joined spelling belongs to the same flag, and holds the same value. */
  lemma JoinedFound(t: Table, args: seq<string>)
    requires Searchable(t) && Joinable(t, args)
    ensures var a := Bisect(t, args[0]).value;
            var key := Joined(t, args);
            && Bisect(t, key) == Some(a) && key != a.name && a.name <= key
            && (match a.disposition.delimiter
                case Some(d) => key[|a.name|] == d && key[|a.name| + 1..] == args[1]
                case None => key[|a.name|..] == args[1])
  {
    var a := Bisect(t, args[0]).value;
    var key := Joined(t, args);
    var d := a.disposition.delimiter;
    assert a.name <= key && |key| > |a.name|;
    assert d.Some? ==> key[|a.name|] == d.value;
    assert Matches(a, key);
    SearchIsScan(t, key);
    ScanFindsThis(t, key, a);
  }

  lemma JoinedReads(t: Table, args: seq<string>, after: seq<string>, probe: Probe)
    requires Searchable(t) && Joinable(t, args)
    ensures var p := Classify(t, args, probe);
            var q := Classify(t, [Joined(t, args)] + after, probe);
            && p.rest == args[2..] && q.rest == after
            && match p.result
               case Err(e) => q.result == p.result
               case Ok(a) => q.result.Ok? && Normalize(q.result.value) == Normalize(a)
  {
    JoinedFound(t, args);
    var whole := [Joined(t, args)] + after;
    assert whole[0] == Joined(t, args) && whole[1..] == after;
    assert args[1..][0] == args[1] && args[1..][1..] == args[2..];
  }

  lemma {:induction false} RespellItems(t: Table, args: seq<string>, joins: seq<bool>, probe: Probe)
    requires Searchable(t)
    ensures ItemsOf(t, Respell(t, args, joins, probe), probe) == ItemsOf(t, args, probe)
    ensures args != [] ==> Respell(t, args, joins, probe) != []
    decreases |args|
  {
    if args != [] {
      var p := Classify(t, args, probe);
      var others := if joins == [] then [] else joins[1..];
      var after := Respell(t, p.rest, others, probe);
      TakesOneOrTwo(t, args, probe);
      RespellItems(t, p.rest, others, probe);
      if joins != [] && joins[0] && Joinable(t, args) {
        JoinedReads(t, args, after, probe);
      } else {
        assert p.rest == [] ==> after == [];
        Local(t, args, after, probe);
      }
    }
  }

  /** Joining any set of flags with their values anywhere on a rustc command
      line leaves the whole outcome as it was. */
  lemma RespellingInvariance(args: seq<string>, joins: seq<bool>, env: Env)
    ensures ParseOf(ARGS, Respell(ARGS, args, joins, env.probe), env) == ParseOf(ARGS, args, env)
  {
    ArgsSearchable();
    RespellItems(ARGS, args, joins, env.probe);
  }
}
