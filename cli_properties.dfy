/**
 * What the command-line mode promises over a whole argument list: the loop
 * stops at the first failure, the exit code is one of the four TFailCodes,
 * compiles are numbered in order, a stage's compiler is constructed once and
 * kept, flags alone construct nothing and end in a usage error, and a flag's
 * acceptance depends on its own text alone.
 */
module CliProperties {
  import opened Wrappers
  import opened Errors
  import opened Text
  import opened ShaderTypes
  import opened Angle
  import opened Cli

  // ---------------------------------------------------------------------
  // The argument loop
  // ---------------------------------------------------------------------

  /** Processing `a + b` is processing `a` and then `b` from where `a` left off. */
  lemma {:induction false} StepsAppend(oracle: Oracle, readFile: FileReader, s: Session, a: seq<string>, b: seq<string>)
    ensures Steps(oracle, readFile, s, a + b) == Steps(oracle, readFile, Steps(oracle, readFile, s, a), b)
    decreases |a|
  {
    if a == [] {
      assert a + b == b;
    } else if s.failCode == ESuccess {
      assert (a + b)[0] == a[0] && (a + b)[1..] == a[1..] + b;
      StepsAppend(oracle, readFile, Step(oracle, readFile, s, a[0]), a[1..], b);
    }
  }

  /** Once an argument has failed, the arguments after it are never looked at. */
  lemma IgnoredAfterFailure(oracle: Oracle, readFile: FileReader, s: Session, a: seq<string>, b: seq<string>)
    requires Steps(oracle, readFile, s, a).failCode != ESuccess
    ensures Steps(oracle, readFile, s, a + b) == Steps(oracle, readFile, s, a)
  {
    StepsAppend(oracle, readFile, s, a, b);
  }

  /** The four codes the command line can end with. */
  predicate CliCode(code: int) {
    code == ESuccess || code == EFailUsage || code == EFailCompile || code == EFailCompilerCreate
  }

  /** Every fail code the loop can set is a TFailCode of the command line. */
  lemma {:induction false} StepsCodes(oracle: Oracle, readFile: FileReader, s: Session, args: seq<string>)
    requires CliCode(s.failCode)
    ensures CliCode(Steps(oracle, readFile, s, args).failCode)
    decreases |args|
  {
    if args != [] && s.failCode == ESuccess {
      StepsCodes(oracle, readFile, Step(oracle, readFile, s, args[0]), args[1..]);
    }
  }

  /** `main` in command-line mode exits with 0, 1, 2 or 3, and with 0 only after a successful compile. */
  lemma ExitCodes(oracle: Oracle, readFile: FileReader, next: nat, args: seq<string>)
    ensures var final := Steps(oracle, readFile, Initial(oracle, next), args);
      && CliCode(ExitCode(final))
      && (ExitCode(final) == ESuccess ==> final.numCompiles > 0 && |final.reports| > 0)
  {
    StepsCodes(oracle, readFile, Initial(oracle, next), args);
    StepsNumbered(oracle, readFile, Initial(oracle, next), args);
  }

  // ---------------------------------------------------------------------
  // Reports
  // ---------------------------------------------------------------------

  /** One report per compile, the k-th carrying the number k in its BEGIN and END lines. */
  ghost predicate Numbered(s: Session) {
    |s.reports| == s.numCompiles && forall k | 0 <= k < |s.reports| :: s.reports[k].index == k
  }

  lemma StepNumbered(oracle: Oracle, readFile: FileReader, s: Session, arg: string)
    requires Numbered(s)
    ensures Numbered(Step(oracle, readFile, s, arg))
  {
    if CharAt(arg, 0) != '-' {
      var stage := FindShaderType(CStr(arg));
      var acquired := Acquire(oracle, s.(settings := RaiseLimits(s.settings)), stage);
      assert acquired.reports == s.reports && acquired.numCompiles == s.numCompiles;
    }
  }

  /** However the loop ends, the reports are numbered 0, 1, 2, … without gaps. */
  lemma {:induction false} StepsNumbered(oracle: Oracle, readFile: FileReader, s: Session, args: seq<string>)
    requires Numbered(s)
    ensures Numbered(Steps(oracle, readFile, s, args))
    decreases |args|
  {
    if args != [] && s.failCode == ESuccess {
      StepNumbered(oracle, readFile, s, args[0]);
      StepsNumbered(oracle, readFile, Step(oracle, readFile, s, args[0]), args[1..]);
    }
  }

  // ---------------------------------------------------------------------
  // Files
  // ---------------------------------------------------------------------

  /** The configuration a file argument constructs its stage's compiler with, when the slot is empty. */
  function NewConfig(s: Settings, stage: Stage): Config {
    Config(stage, s.spec, s.output, StageResources(RaiseLimits(s).resources, stage))
  }

  /**
   * A file argument while nothing has failed: its stage has a compiler
   * exactly when the slot is filled or construction succeeds, and with no
   * compiler the code is 3 and nothing is compiled or reported.
   */
  lemma FileWithoutCompiler(oracle: Oracle, readFile: FileReader, s: Session, fileName: string)
    requires Inv(s) && s.failCode == ESuccess
    ensures var stage := FindShaderType(CStr(fileName));
      var r := FileStep(oracle, readFile, s, fileName);
      && (stage in r.slots <==> stage in s.slots || oracle.constructs(NewConfig(s.settings, stage)))
      && (stage !in r.slots ==>
            r.failCode == EFailCompilerCreate && r.numCompiles == s.numCompiles && r.reports == s.reports)
  {
    var stage := FindShaderType(CStr(fileName));
    var acquired := Acquire(oracle, s.(settings := RaiseLimits(s.settings)), stage);
    assert stage in acquired.slots <==> stage in s.slots || oracle.constructs(NewConfig(s.settings, stage));
  }

  /**
   * A file argument whose stage has a compiler: one more compile and one
   * more report; the source, when the file can be read, goes to that
   * compiler with the back end's options, and the code stays 0 exactly when
   * the file was read and compiled.
   */
  lemma FileWithCompiler(oracle: Oracle, readFile: FileReader, s: Session, fileName: string)
    requires Inv(s) && s.failCode == ESuccess
    requires FindShaderType(CStr(fileName)) in FileStep(oracle, readFile, s, fileName).slots
    ensures var stage := FindShaderType(CStr(fileName));
      var r := FileStep(oracle, readFile, s, fileName);
      var source := readFile(CStr(fileName));
      && r.numCompiles == s.numCompiles + 1 && |r.reports| == |s.reports| + 1
      && r.slots[stage] in r.library.live
      && (source.Some? ==>
            r.library.outcomes[r.slots[stage]]
            == oracle.compile(r.library.live[r.slots[stage]], CStr(source.value), CompileOptionsFor(s.settings)))
      && (r.failCode == ESuccess <==> source.Some? && r.library.outcomes[r.slots[stage]].success)
  {
    var stage := FindShaderType(CStr(fileName));
    var raised := s.(settings := RaiseLimits(s.settings));
    var acquired := Acquire(oracle, raised, stage);
    AcquireInv(oracle, raised, stage);
    AcquireKeeps(oracle, raised, stage);
    UseCompilerOutcome(oracle, readFile, acquired, stage, fileName);
  }

  /** Finding a stage's compiler changes only the resources, the slots and the compilers. */
  lemma AcquireKeeps(oracle: Oracle, s: Session, stage: Stage)
    ensures var r := Acquire(oracle, s, stage);
      && r.failCode == s.failCode && r.numCompiles == s.numCompiles && r.reports == s.reports
      && r.settings == s.settings.(resources := r.settings.resources)
  {
  }

  lemma UseCompilerOutcome(oracle: Oracle, readFile: FileReader, a: Session, stage: Stage, fileName: string)
    requires stage in a.slots && a.slots[stage] in a.library.live
    ensures var r := UseCompiler(oracle, readFile, a, stage, fileName);
      var h := a.slots[stage];
      var source := readFile(CStr(fileName));
      && r.slots == a.slots && r.library.live == a.library.live
      && r.numCompiles == a.numCompiles + 1 && |r.reports| == |a.reports| + 1
      && (source.Some? ==>
            r.library.outcomes[h] == oracle.compile(a.library.live[h], CStr(source.value), CompileOptionsFor(a.settings)))
      && (r.failCode == ESuccess <==> a.failCode == ESuccess && source.Some? && r.library.outcomes[h].success)
  {
  }

  /** A file argument leaves every flag as it was, except that an HLSL back end clears `selectViewInNvGLSLVertexShader`. */
  lemma FileKeepsFlags(oracle: Oracle, readFile: FileReader, s: Session, fileName: string)
    ensures var t := FileStep(oracle, readFile, s, fileName).settings;
      && t.spec == s.settings.spec && t.output == s.settings.output
      && t.printActiveVariables == s.settings.printActiveVariables
      && (t.options == s.settings.options || t.options == CompileOptionsFor(s.settings))
  {
  }

  /**
   * Specs other than GLES 2 and WebGL 1 raise the draw-buffer and
   * texture-unit limits before every file; the combined texture unit limit
   * stays where it was.
   */
  lemma RaisedLimits(s: Settings)
    ensures var r := RaiseLimits(s).resources;
      && (RaisesLimits(s.spec) ==>
            r.MaxDrawBuffers == 8 && r.MaxVertexTextureImageUnits == 16 && r.MaxTextureImageUnits == 16)
      && (!RaisesLimits(s.spec) ==> r == s.resources)
      && r.MaxCombinedTextureImageUnits == s.resources.MaxCombinedTextureImageUnits
  {
  }

  // ---------------------------------------------------------------------
  // Compiler slots
  // ---------------------------------------------------------------------

  /** Every key of `a` is in `b` with the same value. */
  ghost predicate Extends<K, V>(a: map<K, V>, b: map<K, V>) {
    forall k | k in a :: k in b && b[k] == a[k]
  }

  lemma ExtendsTransitive<K, V>(a: map<K, V>, b: map<K, V>, c: map<K, V>)
    requires Extends(a, b) && Extends(b, c)
    ensures Extends(a, c)
  {
  }

  /** A filled slot keeps its handle, and a live compiler keeps the configuration it was constructed with. */
  lemma StepKeepsSlots(oracle: Oracle, readFile: FileReader, s: Session, arg: string)
    requires Inv(s)
    ensures var r := Step(oracle, readFile, s, arg);
      Extends(s.slots, r.slots) && Extends(s.library.live, r.library.live)
  {
    if CharAt(arg, 0) != '-' {
      var stage := FindShaderType(CStr(arg));
      var acquired := Acquire(oracle, s.(settings := RaiseLimits(s.settings)), stage);
      assert Extends(s.slots, acquired.slots) && Extends(s.library.live, acquired.library.live);
    }
  }

  /**
   * Each stage's compiler is constructed at most once: once a slot is
   * filled, every later file of that stage goes to the same handle with the
   * configuration of the first, whatever flags come in between.
   */
  lemma {:induction false} SlotsPersist(oracle: Oracle, readFile: FileReader, s: Session, args: seq<string>)
    requires Inv(s)
    ensures var r := Steps(oracle, readFile, s, args);
      Extends(s.slots, r.slots) && Extends(s.library.live, r.library.live)
    decreases |args|
  {
    if args != [] && s.failCode == ESuccess {
      var t := Step(oracle, readFile, s, args[0]);
      var r := Steps(oracle, readFile, t, args[1..]);
      StepKeepsSlots(oracle, readFile, s, args[0]);
      StepInv(oracle, readFile, s, args[0]);
      SlotsPersist(oracle, readFile, t, args[1..]);
      ExtendsTransitive(s.slots, t.slots, r.slots);
      ExtendsTransitive(s.library.live, t.library.live, r.library.live);
    }
  }

  // ---------------------------------------------------------------------
  // Flags
  // ---------------------------------------------------------------------

  predicate AllFlags(args: seq<string>) {
    forall k | 0 <= k < |args| :: CharAt(args[k], 0) == '-'
  }

  /** Flags alone compile nothing, construct nothing and report nothing. */
  lemma {:induction false} FlagsOnly(oracle: Oracle, readFile: FileReader, s: Session, args: seq<string>)
    requires AllFlags(args) && (s.failCode == ESuccess || s.failCode == EFailUsage)
    ensures var r := Steps(oracle, readFile, s, args);
      && r.numCompiles == s.numCompiles && r.reports == s.reports
      && r.slots == s.slots && r.library == s.library
      && (r.failCode == ESuccess || r.failCode == EFailUsage)
    decreases |args|
  {
    if args != [] && s.failCode == ESuccess {
      assert AllFlags(args[1..]) by {
        forall k | 0 <= k < |args[1..]| ensures CharAt(args[1..][k], 0) == '-' {
          assert args[1..][k] == args[k + 1];
        }
      }
      FlagsOnly(oracle, readFile, Step(oracle, readFile, s, args[0]), args[1..]);
    }
  }

  /** A command line without a file name is a usage error, and no compiler is ever constructed for it. */
  lemma NoFileIsUsage(oracle: Oracle, readFile: FileReader, next: nat, args: seq<string>)
    requires AllFlags(args)
    ensures var final := Steps(oracle, readFile, Initial(oracle, next), args);
      ExitCode(final) == EFailUsage && final.library.live == map[] && final.reports == []
  {
    FlagsOnly(oracle, readFile, Initial(oracle, next), args);
  }

  /** Whether a flag is a usage error depends on its own text, not on the flags before it. */
  lemma FlagAcceptance(s: Settings, t: Settings, arg: string)
    ensures ApplyFlag(s, arg).Some? <==> ApplyFlag(t, arg).Some?
  {
  }

  /** Giving the same flag twice in a row has the effect of giving it once. */
  lemma FlagIdempotent(s: Settings, arg: string)
    requires ApplyFlag(s, arg).Some?
    ensures ApplyFlag(ApplyFlag(s, arg).value, arg) == ApplyFlag(s, arg)
  {
    match CharAt(arg, 1)
    case 's' =>
    case 'b' =>
    case 'x' => ExtensionFlagIdempotent(s, arg);
    case _ =>
  }

  lemma ExtensionFlagIdempotent(s: Settings, arg: string)
    requires ExtensionFlag(s, arg).Some?
    ensures ExtensionFlag(ExtensionFlag(s, arg).value, arg) == ExtensionFlag(s, arg)
  {
    var c := CharAt(arg, 3);
    if c == 'b' || c == 'w' {
      assert ExtensionFlag(s, arg) == CountedExtension(s, arg, c == 'b');
    }
  }

  /** Every compile option a flag may touch is only ever switched on by flags. */
  ghost predicate OptionsGrow(a: CompileOptions, b: CompileOptions) {
    && (a.intermediateTree ==> b.intermediateTree)
    && (a.objectCode ==> b.objectCode)
    && (a.initializeUninitializedLocals ==> b.initializeUninitializedLocals)
    && (a.initializeBuiltinsForInstancedMultiview ==> b.initializeBuiltinsForInstancedMultiview)
    && (a.selectViewInNvGLSLVertexShader ==> b.selectViewInNvGLSLVertexShader)
  }

  /** An accepted flag never switches an option or the variable listing off. */
  lemma FlagsOnlySwitchOn(s: Settings, arg: string)
    requires ApplyFlag(s, arg).Some?
    ensures OptionsGrow(s.options, ApplyFlag(s, arg).value.options)
    ensures s.printActiveVariables ==> ApplyFlag(s, arg).value.printActiveVariables
  {
    match CharAt(arg, 1)
    case 's' => SpecFlagKeepsOptions(s, arg);
    case 'b' => OutputFlagSwitchesOn(s, arg);
    case 'x' => ExtensionFlagSwitchesOn(s, arg);
    case _ =>
  }

  lemma SpecFlagKeepsOptions(s: Settings, arg: string)
    requires SpecFlag(s, arg).Some?
    ensures SpecFlag(s, arg).value.options == s.options
    ensures SpecFlag(s, arg).value.printActiveVariables == s.printActiveVariables
  {
  }

  lemma OutputFlagSwitchesOn(s: Settings, arg: string)
    requires OutputFlag(s, arg).Some?
    ensures OutputFlag(s, arg).value.options == s.options.(initializeUninitializedLocals := true)
    ensures OutputFlag(s, arg).value.printActiveVariables == s.printActiveVariables
  {
  }

  lemma ExtensionFlagSwitchesOn(s: Settings, arg: string)
    requires ExtensionFlag(s, arg).Some?
    ensures OptionsGrow(s.options, ExtensionFlag(s, arg).value.options)
    ensures ExtensionFlag(s, arg).value.printActiveVariables == s.printActiveVariables
  {
    var c := CharAt(arg, 3);
    if c == 'b' || c == 'w' {
      assert ExtensionFlag(s, arg) == CountedExtension(s, arg, c == 'b');
    }
  }

  /** `-s=w` asks for highp in fragment shaders and `-s=wn` does not; both select WebGL 1. */
  lemma WebglPrecision(s: Settings)
    ensures ApplyFlag(s, "-s=w") == Some(s.(spec := Webgl, resources := s.resources.(FragmentPrecisionHigh := 1)))
    ensures ApplyFlag(s, "-s=wn") == Some(s.(spec := Webgl, resources := s.resources.(FragmentPrecisionHigh := 0)))
  {
  }

  /** `-x=w` without a count allows one draw buffer. */
  lemma DefaultDrawBuffers(s: Settings)
    ensures ApplyFlag(s, "-x=w") == Some(s.(resources := s.resources.(MaxDrawBuffers := 1, EXT_draw_buffers := 1)))
  {
  }

  /** `-x=b` without a count allows one dual-source draw buffer. */
  lemma DefaultDualSourceBuffers(s: Settings)
    ensures ApplyFlag(s, "-x=b")
      == Some(s.(resources := s.resources.(MaxDualSourceDrawBuffers := 1, EXT_blend_func_extended := 1)))
  {
  }

  /**
   * `-x=b` and `-x=w` followed by any text without a NUL: the count is what
   * `ParseIntValue` reads from that text (so "007" counts 7), and text it
   * cannot read is a usage error.
   */
  lemma CountedExtensionText(s: Settings, letter: char, count: string)
    requires letter == 'b' || letter == 'w'
    requires forall i | 0 <= i < |count| :: count[i] != '\0'
    ensures var r := ApplyFlag(s, "-x=" + [letter] + count);
      && (ParseIntValue(count, 1).None? ==> r == None)
      && (ParseIntValue(count, 1).Some? && letter == 'b' ==>
            r == Some(s.(resources := s.resources.(MaxDualSourceDrawBuffers := ParseIntValue(count, 1).value, EXT_blend_func_extended := 1))))
      && (ParseIntValue(count, 1).Some? && letter == 'w' ==>
            r == Some(s.(resources := s.resources.(MaxDrawBuffers := ParseIntValue(count, 1).value, EXT_draw_buffers := 1))))
  {
    var arg := "-x=" + [letter] + count;
    CStrWithoutNul(arg);
    assert arg[1] == 'x' && arg[2] == '=' && arg[3] == letter;
    assert arg[4..] == count;
    assert SuffixFrom(arg, 4) == count;
    assert ApplyFlag(s, arg) == CountedExtension(s, arg, letter == 'b') by {
      assert ApplyFlag(s, arg) == ExtensionFlag(s, arg);
    }
  }

  /** `-x=wN` takes any `int` N, as `istringstream` reads it, as the number of draw buffers. */
  lemma CountedDrawBuffers(s: Settings, n: int)
    requires MinInt32 <= n <= MaxInt32
    ensures ApplyFlag(s, "-x=w" + ToDecimal(n)) == Some(s.(resources := s.resources.(MaxDrawBuffers := n, EXT_draw_buffers := 1)))
  {
    var arg := "-x=w" + ToDecimal(n);
    assert arg == "-x=" + ['w'] + ToDecimal(n);
    CountArgument('w', n);
    assert ParseIntValue(SuffixFrom(arg, 4), 1) == Some(n) by {
      ParseIntToDecimal(n);
    }
    assert ApplyFlag(s, arg) == CountedExtension(s, arg, false) by {
      assert ApplyFlag(s, arg) == ExtensionFlag(s, arg);
    }
  }

  /** `-x=bN` takes N as the number of dual-source draw buffers. */
  lemma CountedDualSourceBuffers(s: Settings, n: int)
    requires MinInt32 <= n <= MaxInt32
    ensures ApplyFlag(s, "-x=b" + ToDecimal(n))
      == Some(s.(resources := s.resources.(MaxDualSourceDrawBuffers := n, EXT_blend_func_extended := 1)))
  {
    var arg := "-x=b" + ToDecimal(n);
    assert arg == "-x=" + ['b'] + ToDecimal(n);
    CountArgument('b', n);
    assert ParseIntValue(SuffixFrom(arg, 4), 1) == Some(n) by {
      ParseIntToDecimal(n);
    }
    assert ApplyFlag(s, arg) == CountedExtension(s, arg, true) by {
      assert ApplyFlag(s, arg) == ExtensionFlag(s, arg);
    }
  }

  /** The letters of `-x=` followed by a letter and a decimal count, read as a C string. */
  lemma CountArgument(letter: char, n: int)
    requires letter != '\0'
    ensures var arg := "-x=" + [letter] + ToDecimal(n);
      && CharAt(arg, 1) == 'x' && CharAt(arg, 2) == '=' && CharAt(arg, 3) == letter
      && SuffixFrom(arg, 4) == ToDecimal(n)
  {
    var arg := "-x=" + [letter] + ToDecimal(n);
    ToDecimalWithoutNul(n);
    CStrWithoutNul(arg);
    assert arg[1] == 'x' && arg[2] == '=' && arg[3] == letter;
    assert arg[4..] == ToDecimal(n);
  }

  /** An unknown flag letter, or a flag letter without its '=', is a usage error. */
  lemma UnknownFlags(s: Settings)
    ensures ApplyFlag(s, "-q") == None && ApplyFlag(s, "-s") == None && ApplyFlag(s, "-x=q") == None
  {
  }
}
