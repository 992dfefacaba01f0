/** rustc's command line read the plain way. */
module RustcWords {
  import opened Wrappers
  import opened ArgTable
  import opened RustcTable
  import opened CommandWords

  const PASSED := {
    "--allow", "--cap-lints", "--cfg", "--check-cfg", "--deny", "--diagnostic-width", "--edition", "--env-set", "--error-format",
    "--forbid", "--force-warn", "--remap-path-prefix", "--remap-path-scope", "--warn", "-A", "-D", "-F", "-W"
  }

  /** The flags that take a value. */
  function KindNamed(name: string): Option<Kind> {
    if name in PASSED then Some(Kind.PassThrough)
    else if name in {"-C", "--codegen"} then Some(Kind.CodeGen)
    else if name in {"--explain", "--pretty", "--print", "--unpretty"} then Some(Kind.NotCompilation)
    else if name in {"--sysroot", "-o"} then Some(Kind.TooHardPath)
    else if name == "--color" then Some(Kind.Color)
    else if name == "--crate-name" then Some(Kind.CrateName)
    else if name == "--crate-type" then Some(Kind.CrateType)
    else if name == "--emit" then Some(Kind.Emit)
    else if name == "--extern" then Some(Kind.Extern)
    else if name == "--json" then Some(Kind.Json)
    else if name == "--out-dir" then Some(Kind.OutDir)
    else if name == "--target" then Some(Kind.Target)
    else if name == "-L" then Some(Kind.LinkPath)
    else if name == "-Z" then Some(Kind.Unstable)
    else if name == "-l" then Some(Kind.LinkLibrary)
    else None
  }

  /** And those that take none. */
  function BareNamed(name: string): Option<FlagKind> {
    if name == "-" then Some(FlagKind.TooHardFlag)
    else if name in {"--help", "--version", "-V"} then Some(FlagKind.NotCompilationFlag)
    else None
  }

  predicate NamedRight(e: ArgInfo) {
    if e.TakeArg? then KindNamed(e.name) == Some(e.kind) else BareNamed(e.name) == Some(e.what) && KindNamed(e.name) == None
  }

  lemma NamedRight1(k: nat)
    requires k < 10
    ensures NamedRight(ARGS[k])
  {
  }

  lemma NamedRight2(k: nat)
    requires 10 <= k < 20
    ensures NamedRight(ARGS[k])
  {
  }

  lemma NamedRight3(k: nat)
    requires 20 <= k < 30
    ensures NamedRight(ARGS[k])
  {
  }

  lemma NamedRight4(k: nat)
    requires 30 <= k < 41
    ensures NamedRight(ARGS[k])
  {
  }

  lemma LongNamed(name: string, kind: Kind)
    requires "--" <= name && '=' !in name
    ensures WellNamed(Long(name, kind))
  {
  }

  lemma ShortNamed(name: string, kind: Kind)
    requires |name| == 2 && name[0] == '-' && name[1] != '-'
    ensures WellNamed(Short(name, kind))
  {
  }

  lemma WellNamed1(k: nat)
    requires k < 10
    ensures WellNamed(ARGS[k])
  {
    LongNamed("--allow", Kind.PassThrough);
    LongNamed("--cap-lints", Kind.PassThrough);
    LongNamed("--cfg", Kind.PassThrough);
    LongNamed("--check-cfg", Kind.PassThrough);
    LongNamed("--codegen", Kind.CodeGen);
    LongNamed("--color", Kind.Color);
    LongNamed("--crate-name", Kind.CrateName);
    LongNamed("--crate-type", Kind.CrateType);
    LongNamed("--deny", Kind.PassThrough);
  }

  lemma WellNamed2(k: nat)
    requires 10 <= k < 20
    ensures WellNamed(ARGS[k])
  {
    LongNamed("--diagnostic-width", Kind.PassThrough);
    LongNamed("--edition", Kind.PassThrough);
    LongNamed("--emit", Kind.Emit);
    LongNamed("--env-set", Kind.PassThrough);
    LongNamed("--error-format", Kind.PassThrough);
    LongNamed("--explain", Kind.NotCompilation);
    LongNamed("--extern", Kind.Extern);
    LongNamed("--forbid", Kind.PassThrough);
    LongNamed("--force-warn", Kind.PassThrough);
  }

  lemma WellNamed3(k: nat)
    requires 20 <= k < 30
    ensures WellNamed(ARGS[k])
  {
    LongNamed("--json", Kind.Json);
    LongNamed("--out-dir", Kind.OutDir);
    LongNamed("--pretty", Kind.NotCompilation);
    LongNamed("--print", Kind.NotCompilation);
    LongNamed("--remap-path-prefix", Kind.PassThrough);
    LongNamed("--remap-path-scope", Kind.PassThrough);
    LongNamed("--sysroot", Kind.TooHardPath);
    LongNamed("--target", Kind.Target);
    LongNamed("--unpretty", Kind.NotCompilation);
  }

  lemma WellNamed4(k: nat)
    requires 30 <= k < 41
    ensures WellNamed(ARGS[k])
  {
    LongNamed("--warn", Kind.PassThrough);
    ShortNamed("-A", Kind.PassThrough);
    ShortNamed("-C", Kind.CodeGen);
    ShortNamed("-D", Kind.PassThrough);
    ShortNamed("-F", Kind.PassThrough);
    ShortNamed("-L", Kind.LinkPath);
    ShortNamed("-W", Kind.PassThrough);
    ShortNamed("-Z", Kind.Unstable);
    ShortNamed("-l", Kind.LinkLibrary);
    ShortNamed("-o", Kind.TooHardPath);
  }

  lemma AllNamedRight()
    ensures forall e <- ARGS :: NamedRight(e)
  {
    forall k | 0 <= k < |ARGS| ensures NamedRight(ARGS[k]) {
      if k < 10 { NamedRight1(k); } else if k < 20 { NamedRight2(k); } else if k < 30 { NamedRight3(k); } else { NamedRight4(k); }
    }
  }

  lemma AllWellNamed()
    ensures forall e <- ARGS :: WellNamed(e)
  {
    forall k | 0 <= k < |ARGS| ensures WellNamed(ARGS[k]) {
      if k < 10 { WellNamed1(k); } else if k < 20 { WellNamed2(k); } else if k < 30 { WellNamed3(k); } else { WellNamed4(k); }
    }
  }

  ghost predicate Present(name: string) {
    exists e <- ARGS :: e.TakeArg? && e.name == name
  }

  lemma At1()
    ensures |ARGS| == 41
    ensures ARGS[0] == ArgInfo.Flag("-", FlagKind.TooHardFlag)
    ensures ARGS[1] == Long("--allow", Kind.PassThrough)
    ensures ARGS[2] == Long("--cap-lints", Kind.PassThrough)
  {
  }

  lemma At2()
    ensures |ARGS| == 41
    ensures ARGS[3] == Long("--cfg", Kind.PassThrough)
    ensures ARGS[4] == Long("--check-cfg", Kind.PassThrough)
    ensures ARGS[5] == Long("--codegen", Kind.CodeGen)
  {
  }

  lemma At3()
    ensures |ARGS| == 41
    ensures ARGS[6] == Long("--color", Kind.Color)
    ensures ARGS[7] == Long("--crate-name", Kind.CrateName)
    ensures ARGS[8] == Long("--crate-type", Kind.CrateType)
  {
  }

  lemma At4()
    ensures |ARGS| == 41
    ensures ARGS[9] == Long("--deny", Kind.PassThrough)
    ensures ARGS[10] == Long("--diagnostic-width", Kind.PassThrough)
    ensures ARGS[11] == Long("--edition", Kind.PassThrough)
  {
  }

  lemma At5()
    ensures |ARGS| == 41
    ensures ARGS[12] == Long("--emit", Kind.Emit)
    ensures ARGS[13] == Long("--env-set", Kind.PassThrough)
    ensures ARGS[14] == Long("--error-format", Kind.PassThrough)
  {
  }

  lemma At6()
    ensures |ARGS| == 41
    ensures ARGS[15] == Long("--explain", Kind.NotCompilation)
    ensures ARGS[16] == Long("--extern", Kind.Extern)
    ensures ARGS[17] == Long("--forbid", Kind.PassThrough)
  {
  }

  lemma At7()
    ensures |ARGS| == 41
    ensures ARGS[18] == Long("--force-warn", Kind.PassThrough)
    ensures ARGS[19] == ArgInfo.Flag("--help", FlagKind.NotCompilationFlag)
    ensures ARGS[20] == Long("--json", Kind.Json)
  {
  }

  lemma At8()
    ensures |ARGS| == 41
    ensures ARGS[21] == Long("--out-dir", Kind.OutDir)
    ensures ARGS[22] == Long("--pretty", Kind.NotCompilation)
    ensures ARGS[23] == Long("--print", Kind.NotCompilation)
  {
  }

  lemma At9()
    ensures |ARGS| == 41
    ensures ARGS[24] == Long("--remap-path-prefix", Kind.PassThrough)
    ensures ARGS[25] == Long("--remap-path-scope", Kind.PassThrough)
    ensures ARGS[26] == Long("--sysroot", Kind.TooHardPath)
  {
  }

  lemma At10()
    ensures |ARGS| == 41
    ensures ARGS[27] == Long("--target", Kind.Target)
    ensures ARGS[28] == Long("--unpretty", Kind.NotCompilation)
    ensures ARGS[29] == ArgInfo.Flag("--version", FlagKind.NotCompilationFlag)
  {
  }

  lemma At11()
    ensures |ARGS| == 41
    ensures ARGS[30] == Long("--warn", Kind.PassThrough)
    ensures ARGS[31] == Short("-A", Kind.PassThrough)
    ensures ARGS[32] == Short("-C", Kind.CodeGen)
  {
  }

  lemma At12()
    ensures |ARGS| == 41
    ensures ARGS[33] == Short("-D", Kind.PassThrough)
    ensures ARGS[34] == Short("-F", Kind.PassThrough)
    ensures ARGS[35] == Short("-L", Kind.LinkPath)
    ensures ARGS[36] == ArgInfo.Flag("-V", FlagKind.NotCompilationFlag)
  {
  }

  lemma At13()
    ensures |ARGS| == 41
    ensures ARGS[37] == Short("-W", Kind.PassThrough)
    ensures ARGS[38] == Short("-Z", Kind.Unstable)
    ensures ARGS[39] == Short("-l", Kind.LinkLibrary)
    ensures ARGS[40] == Short("-o", Kind.TooHardPath)
  {
  }

  lemma Present1(name: string)
    requires name in {"--allow", "--cap-lints"}
    ensures Present(name)
  {
    At1();
  }

  lemma Present2(name: string)
    requires name in {"--cfg", "--check-cfg", "--codegen"}
    ensures Present(name)
  {
    At2();
  }

  lemma Present3(name: string)
    requires name in {"--color", "--crate-name", "--crate-type"}
    ensures Present(name)
  {
    At3();
  }

  lemma Present4(name: string)
    requires name in {"--deny", "--diagnostic-width", "--edition"}
    ensures Present(name)
  {
    At4();
  }

  lemma Present5(name: string)
    requires name in {"--emit", "--env-set", "--error-format"}
    ensures Present(name)
  {
    At5();
  }

  lemma Present6(name: string)
    requires name in {"--explain", "--extern", "--forbid"}
    ensures Present(name)
  {
    At6();
  }

  lemma Present7(name: string)
    requires name in {"--force-warn", "--json"}
    ensures Present(name)
  {
    At7();
  }

  lemma Present8(name: string)
    requires name in {"--out-dir", "--pretty", "--print"}
    ensures Present(name)
  {
    At8();
  }

  lemma Present9(name: string)
    requires name in {"--remap-path-prefix", "--remap-path-scope", "--sysroot"}
    ensures Present(name)
  {
    At9();
  }

  lemma Present10(name: string)
    requires name in {"--target", "--unpretty"}
    ensures Present(name)
  {
    At10();
  }

  lemma Present11(name: string)
    requires name in {"--warn", "-A", "-C"}
    ensures Present(name)
  {
    At11();
  }

  lemma Present12(name: string)
    requires name in {"-D", "-F", "-L"}
    ensures Present(name)
  {
    At12();
  }

  lemma Present13(name: string)
    requires name in {"-W", "-Z", "-l", "-o"}
    ensures Present(name)
  {
    At13();
  }

  lemma Known(name: string)
    requires KindNamed(name).Some?
    ensures Present(name)
  {
    if name in {"--allow", "--cap-lints"} { Present1(name); }
    else if name in {"--cfg", "--check-cfg", "--codegen"} { Present2(name); }
    else if name in {"--color", "--crate-name", "--crate-type"} { Present3(name); }
    else if name in {"--deny", "--diagnostic-width", "--edition"} { Present4(name); }
    else if name in {"--emit", "--env-set", "--error-format"} { Present5(name); }
    else if name in {"--explain", "--extern", "--forbid"} { Present6(name); }
    else if name in {"--force-warn", "--json"} { Present7(name); }
    else if name in {"--out-dir", "--pretty", "--print"} { Present8(name); }
    else if name in {"--remap-path-prefix", "--remap-path-scope", "--sysroot"} { Present9(name); }
    else if name in {"--target", "--unpretty"} { Present10(name); }
    else if name in {"--warn", "-A", "-C"} { Present11(name); }
    else if name in {"-D", "-F", "-L"} { Present12(name); }
    else { Present13(name); }
  }

  lemma KnownBare(name: string)
    requires BareNamed(name).Some?
    ensures exists e <- ARGS :: e.Flag? && e.name == name
  {
    if name == "-" { At1(); assert ARGS[0].name == name; }
    else if name == "--help" { At7(); assert ARGS[19].name == name; }
    else if name == "--version" { At10(); assert ARGS[29].name == name; }
    else { At12(); assert ARGS[36].name == name; }
  }

  /** rustc's table has exactly these flags. */
  lemma ArgsFit()
    ensures Fits(ARGS, KindNamed, BareNamed)
  {
    ArgsSearchable();
    AllNamedRight();
    AllWellNamed();
    forall name | KindNamed(name).Some? ensures exists e <- ARGS :: e.TakeArg? && e.name == name { Known(name); }
    forall name | BareNamed(name).Some? ensures exists e <- ARGS :: e.Flag? && e.name == name { KnownBare(name); }
  }
}
