/**
 * The command-line mode of `main`: flags are read left to right into the
 * session's spec, output, resources and compile options; every other
 * argument is a file that is compiled with the compiler of its stage, which
 * is constructed the first time that stage is met and reused after that.
 * The first failure ends the loop, and every compiler constructed is
 * destructed before the exit code is returned.
 *
 * Reading a file is the parameter `readFile` (None when it cannot be
 * opened); what the session prints for each compile is kept as a `Report`.
 */
module Cli {
  import opened Wrappers
  import opened Errors
  import opened Text
  import opened ShaderTypes
  import opened Reflection
  import opened Angle

  type FileReader = string -> Option<string>

  /** The variables the flags set: `cli_spec`, `cli_output`, `cli_resources`, `cli_compile_options`, `cli_print_active_variables`. */
  datatype Settings = Settings(
    spec: Spec,
    output: Output,
    resources: Resources,
    options: CompileOptions,
    printActiveVariables: bool)

  /** The state of a `Compilers` object: live handles with their configurations, compile outcomes, the next handle. */
  datatype Library = Library(live: map<nat, Config>, outcomes: map<nat, CompileOutcome>, next: nat)

  /** The object code block of a report: text, or the SPIR-V binary for the Vulkan back end. */
  datatype Listing = ObjectText(code: string) | SpirvListing(blob: seq<Word>)

  /** What the session prints between the BEGIN and END lines for compile number `index`. */
  datatype Report = Report(
    index: nat,
    infoLog: string,
    objectCode: Option<Listing>,
    variables: Option<ActiveVariables>)

  /**
   * The whole session as a value: the settings, the handle in each of the
   * six compiler slots (a missing stage is a null handle), the compilers,
   * the compile count, the fail code and the reports printed so far.
   */
  datatype Session = Session(
    settings: Settings,
    slots: map<Stage, nat>,
    library: Library,
    numCompiles: nat,
    failCode: int,
    reports: seq<Report>)

  /** The session before the first argument, with no compiler alive. */
  function Initial(oracle: Oracle, next: nat): Session {
    Session(Settings(Gles2, Essl, GenerateResources(oracle.initResources), NoOptions, false),
      map[], Library(map[], map[], next), 0, ESuccess, [])
  }

  /**
   * Every slot holds a distinct live compiler, and every live compiler is in
   * a slot; handles below `next` were handed out, and only live compilers
   * have outcomes.
   */
  ghost predicate Inv(s: Session) {
    && (forall st | st in s.slots :: s.slots[st] in s.library.live)
    && (forall a, b | a in s.slots && b in s.slots && a != b :: s.slots[a] != s.slots[b])
    && |s.library.live| == |s.slots|
    && (forall h | h in s.library.live :: h < s.library.next)
    && s.library.outcomes.Keys <= s.library.live.Keys
  }

  // ---------------------------------------------------------------------
  // Flags
  // ---------------------------------------------------------------------

  /** `-s=[e2|e3|e31|e32|w|wn|w2|w3]`; None is a usage error. */
  function SpecFlag(s: Settings, arg: string): Option<Settings> {
    if CharAt(arg, 2) != '=' then None
    else match CharAt(arg, 3)
      case 'e' =>
        Some(s.(spec := if CharAt(arg, 4) != '3' then Gles2
                        else if CharAt(arg, 5) == '1' then Gles31
                        else if CharAt(arg, 5) == '2' then Gles32
                        else Gles3))
      case 'w' =>
        if CharAt(arg, 4) == '3' then Some(s.(spec := Webgl3))
        else if CharAt(arg, 4) == '2' then Some(s.(spec := Webgl2))
        else if CharAt(arg, 4) == 'n' then Some(s.(spec := Webgl, resources := s.resources.(FragmentPrecisionHigh := 0)))
        else Some(s.(spec := Webgl, resources := s.resources.(FragmentPrecisionHigh := 1)))
      case _ => None
  }

  /** `-b=[e|g[NUM]|v|h9|h11|m]`; every accepted back end also initializes uninitialized locals. */
  function OutputFlag(s: Settings, arg: string): Option<Settings> {
    if CharAt(arg, 2) != '=' then None
    else
      var s := s.(options := s.options.(initializeUninitializedLocals := true));
      match CharAt(arg, 3)
      case 'e' => Some(s.(output := Essl))
      case 'g' =>
        (match ParseGLSLOutputVersion(SuffixFrom(arg, 4))
         case Some(o) => Some(s.(output := o))
         case None => None)
      case 'v' => Some(s.(output := Spirv))
      case 'h' => Some(s.(output := if CharAt(arg, 4) == '1' && CharAt(arg, 5) == '1' then Hlsl41 else Hlsl30))
      case 'm' => Some(s.(output := Msl))
      case _ => None
  }

  /** `-x=b[NUM]` and `-x=w[NUM]`: the count after the letter, 1 when there is none. */
  function CountedExtension(s: Settings, arg: string, dualSource: bool): Option<Settings> {
    match ParseIntValue(SuffixFrom(arg, 4), 1)
    case None => None
    case Some(n) =>
      if dualSource then Some(s.(resources := s.resources.(MaxDualSourceDrawBuffers := n, EXT_blend_func_extended := 1)))
      else Some(s.(resources := s.resources.(MaxDrawBuffers := n, EXT_draw_buffers := 1)))
  }

  /** `-x=[i|d|r|b[NUM]|w[NUM]|g|l|f|n|a|m|y|s]`: enable one extension. */
  function ExtensionFlag(s: Settings, arg: string): Option<Settings> {
    if CharAt(arg, 2) != '=' then None
    else
      var r := s.resources;
      match CharAt(arg, 3)
      case 'i' => Some(s.(resources := r.(OES_EGL_image_external := 1)))
      case 'd' => Some(s.(resources := r.(OES_standard_derivatives := 1)))
      case 'r' => Some(s.(resources := r.(ARB_texture_rectangle := 1)))
      case 'b' => CountedExtension(s, arg, true)
      case 'w' => CountedExtension(s, arg, false)
      case 'g' => Some(s.(resources := r.(EXT_frag_depth := 1)))
      case 'l' => Some(s.(resources := r.(EXT_shader_texture_lod := 1)))
      case 'f' => Some(s.(resources := r.(EXT_shader_framebuffer_fetch := 1)))
      case 'n' => Some(s.(resources := r.(NV_shader_framebuffer_fetch := 1)))
      case 'a' => Some(s.(resources := r.(ARM_shader_framebuffer_fetch := 1)))
      case 'm' =>
        Some(s.(resources := r.(OVR_multiview2 := 1, OVR_multiview := 1),
                options := s.options.(initializeBuiltinsForInstancedMultiview := true, selectViewInNvGLSLVertexShader := true)))
      case 'y' => Some(s.(resources := r.(EXT_YUV_target := 1)))
      case 's' => Some(s.(resources := r.(OES_sample_variables := 1)))
      case _ => None
  }

  /** One argument that starts with '-'; None is a usage error. */
  function ApplyFlag(s: Settings, arg: string): Option<Settings> {
    match CharAt(arg, 1)
    case 'i' => Some(s.(options := s.options.(intermediateTree := true)))
    case 'o' => Some(s.(options := s.options.(objectCode := true)))
    case 'u' => Some(s.(printActiveVariables := true))
    case 's' => SpecFlag(s, arg)
    case 'b' => OutputFlag(s, arg)
    case 'x' => ExtensionFlag(s, arg)
    case _ => None
  }

  // ---------------------------------------------------------------------
  // Files
  // ---------------------------------------------------------------------

  /** Before each file, specs other than GLES 2 and WebGL 1 raise three limits; the combined unit count stays. */
  function RaiseLimits(s: Settings): Settings {
    if RaisesLimits(s.spec) then
      s.(resources := s.resources.(MaxDrawBuffers := 8, MaxVertexTextureImageUnits := 16, MaxTextureImageUnits := 16))
    else s
  }

  /** The extension a geometry or tessellation compiler needs, set just before it is constructed. */
  function StageResources(r: Resources, stage: Stage): Resources {
    r.(EXT_geometry_shader := if stage == Geometry then 1 else r.EXT_geometry_shader,
       EXT_tessellation_shader := if stage == TessControl || stage == TessEval then 1 else r.EXT_tessellation_shader)
  }

  /** The compiler of `stage`: the one in its slot, or a new one when the slot is empty and construction succeeds. */
  function Acquire(oracle: Oracle, s: Session, stage: Stage): Session {
    if stage in s.slots then s
    else
      var settings := s.settings.(resources := StageResources(s.settings.resources, stage));
      var config := Config(stage, settings.spec, settings.output, settings.resources);
      var h := s.library.next;
      if oracle.constructs(config) then
        s.(settings := settings, slots := s.slots[stage := h],
           library := s.library.(live := s.library.live[h := config], next := h + 1))
      else s.(settings := settings)
  }

  /** The HLSL back ends clear `selectViewInNvGLSLVertexShader`, and the cleared option stays cleared. */
  function CompileOptionsFor(s: Settings): CompileOptions {
    if s.output == Hlsl30 || s.output == Hlsl41 then s.options.(selectViewInNvGLSLVertexShader := false) else s.options
  }

  /** The info log always (empty for a compiler never compiled); object code and reflection only after a successful compile that asked for them. */
  function ReportOf(index: nat, last: Option<CompileOutcome>, compiled: bool, s: Settings): Report
    requires compiled ==> last.Some?
  {
    Report(index,
      if last.Some? then last.value.infoLog else "",
      if compiled && s.options.objectCode then
        Some(if s.output != Spirv then ObjectText(last.value.objectCode) else SpirvListing(last.value.blob))
      else None,
      if compiled && s.printActiveVariables then Some(last.value.variables) else None)
  }

  /**
   * `CompileFile` with the compiler in `stage`'s slot and the printing that
   * follows: a file that cannot be read is not compiled and counts as a
   * failed compile, and its report shows whatever info log the compiler holds.
   */
  function CompileInSlot(oracle: Oracle, readFile: FileReader, s: Session, stage: Stage, fileName: string): Session
    requires stage in s.slots && s.slots[stage] in s.library.live
  {
    var settings := s.settings;
    var h := s.slots[stage];
    var source := readFile(CStr(fileName));
    var library := if source.Some? then
        s.library.(outcomes := s.library.outcomes[h := oracle.compile(s.library.live[h], CStr(source.value), settings.options)])
      else s.library;
    var last := if h in library.outcomes then Some(library.outcomes[h]) else None;
    var compiled := source.Some? && last.value.success;
    s.(settings := settings,
       library := library,
       numCompiles := s.numCompiles + 1,
       failCode := if compiled then s.failCode else EFailCompile,
       reports := s.reports + [ReportOf(s.numCompiles, last, compiled, settings)])
  }

  /** A file whose stage has a compiler: settle the compile options, then compile and report. */
  function UseCompiler(oracle: Oracle, readFile: FileReader, s: Session, stage: Stage, fileName: string): Session
    requires stage in s.slots && s.slots[stage] in s.library.live
  {
    CompileInSlot(oracle, readFile, s.(settings := s.settings.(options := CompileOptionsFor(s.settings))), stage, fileName)
  }

  /** An argument that does not start with '-'. */
  function FileStep(oracle: Oracle, readFile: FileReader, s: Session, fileName: string): Session {
    var stage := FindShaderType(CStr(fileName));
    var s' := Acquire(oracle, s.(settings := RaiseLimits(s.settings)), stage);
    if stage in s'.slots && s'.slots[stage] in s'.library.live then UseCompiler(oracle, readFile, s', stage, fileName)
    else s'.(failCode := if s'.failCode == ESuccess then EFailCompilerCreate else s'.failCode)
  }

  /** One argument. */
  function Step(oracle: Oracle, readFile: FileReader, s: Session, arg: string): Session {
    if CharAt(arg, 0) == '-' then
      match ApplyFlag(s.settings, arg)
      case None => s.(failCode := EFailUsage)
      case Some(settings) => s.(settings := settings)
    else FileStep(oracle, readFile, s, arg)
  }

  /** The argument loop: one step per argument while the fail code is still ESuccess. */
  function Steps(oracle: Oracle, readFile: FileReader, s: Session, args: seq<string>): (r: Session)
    ensures |args| == 0 || s.failCode != ESuccess ==> r == s
    decreases |args|
  {
    if args == [] || s.failCode != ESuccess then s
    else Steps(oracle, readFile, Step(oracle, readFile, s, args[0]), args[1..])
  }

  /** The exit code: usage when nothing was compiled and nothing failed. */
  function ExitCode(s: Session): (code: int)
    ensures code == ESuccess <==> s.numCompiles > 0 && s.failCode == ESuccess
    ensures s.failCode != ESuccess ==> code == s.failCode
  {
    if s.numCompiles == 0 && s.failCode == ESuccess then EFailUsage else s.failCode
  }

  /** The order in which the slots are destructed. */
  const TeardownOrder: seq<Stage> := [Vertex, Fragment, Compute, Geometry, TessControl, TessEval]

  function TeardownIndex(stage: Stage): (k: nat)
    ensures k < |TeardownOrder| && TeardownOrder[k] == stage
  {
    match stage
    case Vertex => 0
    case Fragment => 1
    case Compute => 2
    case Geometry => 3
    case TessControl => 4
    case TessEval => 5
  }

  /** `sh::Destruct` on the compiler in `stage`'s slot, if there is one. */
  function Release(s: Session, stage: Stage): Session {
    if stage in s.slots then
      var h := s.slots[stage];
      s.(slots := s.slots - {stage},
         library := s.library.(live := s.library.live - {h}, outcomes := s.library.outcomes - {h}))
    else s
  }

  // ---------------------------------------------------------------------
  // The session
  // ---------------------------------------------------------------------

  class CliSession {
    const compilers: Compilers
    const readFile: FileReader
    var spec: Spec
    var output: Output
    var resources: Resources
    var options: CompileOptions
    var printActiveVariables: bool
    /** The six `cli_*_compiler` slots; a stage that is absent holds the null handle. */
    var handles: map<Stage, nat>
    var numCompiles: nat
    var failCode: int
    var reports: seq<Report>

    function Current(): Settings
      reads this
    {
      Settings(spec, output, resources, options, printActiveVariables)
    }

    /** The session value `s` is this object together with its compilers. */
    ghost predicate Models(s: Session)
      reads this, compilers
    {
      && compilers.Valid()
      && s.settings == Current() && s.slots == handles
      && s.library == Library(compilers.live, compilers.outcomes, compilers.next)
      && s.numCompiles == numCompiles && s.failCode == failCode && s.reports == reports
    }

    constructor (compilers: Compilers, readFile: FileReader)
      requires compilers.Valid() && compilers.live == map[]
      ensures this.compilers == compilers && this.readFile == readFile
      ensures Models(Initial(compilers.oracle, compilers.next))
    {
      this.compilers := compilers;
      this.readFile := readFile;
      spec := Gles2;
      output := Essl;
      resources := GenerateResources(compilers.oracle.initResources);
      options := NoOptions;
      printActiveVariables := false;
      handles := map[];
      numCompiles := 0;
      failCode := ESuccess;
      reports := [];
      new;
      assert compilers.outcomes.Keys == {};
    }

    /** The compiler for `stage`, constructing it when its slot is empty; None when construction fails. */
    method AcquireCompiler(stage: Stage, ghost s: Session) returns (h: Option<nat>)
      requires Models(s) && (stage in handles ==> handles[stage] in compilers.live)
      modifies this, compilers
      ensures Models(Acquire(compilers.oracle, s, stage))
      ensures h.Some? <==> stage in handles
      ensures h.Some? ==> h.value == handles[stage] && h.value in compilers.live
    {
      if stage in handles {
        return Some(handles[stage]);
      }
      resources := StageResources(resources, stage);
      h := compilers.Construct(Config(stage, spec, output, resources));
      if h.Some? {
        handles := handles[stage := h.value];
      }
    }

    /** Compile one file with the compiler in `stage`'s slot and print its report. */
    method CompileWith(stage: Stage, fileName: string, ghost s: Session)
      requires Models(s) && stage in handles && handles[stage] in compilers.live
      modifies this, compilers
      ensures Models(CompileInSlot(compilers.oracle, readFile, s, stage, fileName))
    {
      var h := handles[stage];
      var source := readFile(CStr(fileName));
      var compiled := false;
      if source.Some? {
        compiled := compilers.Compile(h, CStr(source.value), options);
      }
      var report := ReportFor(h, compiled);
      reports := reports + [report];
      if !compiled {
        failCode := EFailCompile;
      }
      numCompiles := numCompiles + 1;
    }

    /** Settle the compile options for the back end, then compile with the compiler in `stage`'s slot. */
    method UseCompilerIn(stage: Stage, fileName: string, ghost s: Session)
      requires Models(s) && stage in handles && handles[stage] in compilers.live
      modifies this, compilers
      ensures Models(UseCompiler(compilers.oracle, readFile, s, stage, fileName))
    {
      if output == Hlsl30 || output == Hlsl41 {
        options := options.(selectViewInNvGLSLVertexShader := false);
      }
      CompileWith(stage, fileName, s.(settings := s.settings.(options := CompileOptionsFor(s.settings))));
    }

    /** The info log, object code and reflection that `CompileFile`'s caller prints for compiler `h`. */
    method ReportFor(h: nat, compiled: bool) returns (report: Report)
      requires compiled ==> h in compilers.outcomes
      ensures report == ReportOf(numCompiles, if h in compilers.outcomes then Some(compilers.outcomes[h]) else None, compiled, Current())
    {
      var infoLog := if h in compilers.outcomes then compilers.InfoLog(h) else "";
      var objectCode := None;
      if compiled && options.objectCode {
        if output != Spirv {
          objectCode := Some(ObjectText(compilers.ObjectCode(h)));
        } else {
          objectCode := Some(SpirvListing(compilers.ObjectBinaryBlob(h)));
        }
      }
      var variables := None;
      if compiled && printActiveVariables {
        variables := Some(compilers.ActiveVariablesOf(h));
      }
      report := Report(numCompiles, infoLog, objectCode, variables);
    }

    /** An argument that names a file. */
    method CompileFileArgument(fileName: string, ghost s: Session)
      requires Models(s) && Inv(s)
      modifies this, compilers
      ensures Models(FileStep(compilers.oracle, readFile, s, fileName))
    {
      if spec != Gles2 && spec != Webgl {
        resources := resources.(MaxDrawBuffers := 8, MaxVertexTextureImageUnits := 16, MaxTextureImageUnits := 16);
      }
      var stage := FindShaderType(CStr(fileName));
      ghost var raised := s.(settings := RaiseLimits(s.settings));
      var h := AcquireCompiler(stage, raised);
      if h.None? {
        if failCode == ESuccess {
          failCode := EFailCompilerCreate;
        }
        return;
      }
      UseCompilerIn(stage, fileName, Acquire(compilers.oracle, raised, stage));
    }

    /** One pass of the argument loop. */
    method ProcessArgument(arg: string, ghost s: Session)
      requires Models(s) && Inv(s)
      modifies this, compilers
      ensures Models(Step(compilers.oracle, readFile, s, arg))
    {
      if CharAt(arg, 0) == '-' {
        var parsed := ApplyFlag(Current(), arg);
        if parsed.None? {
          failCode := EFailUsage;
        } else {
          spec := parsed.value.spec;
          output := parsed.value.output;
          resources := parsed.value.resources;
          options := parsed.value.options;
          printActiveVariables := parsed.value.printActiveVariables;
        }
      } else {
        CompileFileArgument(arg, s);
      }
    }

    /** `sh::Destruct` on one slot's compiler, if it has one. */
    method DestructSlot(stage: Stage, ghost s: Session)
      requires Models(s) && Inv(s)
      modifies this, compilers
      ensures Models(Release(s, stage))
    {
      if stage in handles {
        var h := handles[stage];
        compilers.Destruct(h);
        handles := handles - {stage};
      }
    }

    /** The argument loop: each argument in turn while the fail code is ESuccess. */
    method ProcessArguments(args: seq<string>, ghost s: Session)
      requires Models(s) && Inv(s)
      modifies this, compilers
      ensures Models(Steps(compilers.oracle, readFile, s, args)) && Inv(Steps(compilers.oracle, readFile, s, args))
    {
      ghost var current := s;
      var i := 0;
      while i < |args| && failCode == ESuccess
        invariant 0 <= i <= |args|
        invariant Models(current) && Inv(current)
        invariant Steps(compilers.oracle, readFile, current, args[i..]) == Steps(compilers.oracle, readFile, s, args)
      {
        assert args[i..][0] == args[i] && args[i..][1..] == args[i + 1..];
        ProcessArgument(args[i], current);
        StepInv(compilers.oracle, readFile, current, args[i]);
        current := Step(compilers.oracle, readFile, current, args[i]);
        i := i + 1;
      }
    }

    /**
     * The argument loop, the usage check and the teardown: the exit code is
     * that of the arguments, the reports are theirs, and no compiler is left
     * alive.
     */
    method Run(args: seq<string>, ghost s: Session) returns (exitCode: int)
      requires Models(s) && Inv(s)
      modifies this, compilers
      ensures compilers.Valid() && handles == map[] && compilers.live == map[]
      ensures var final := Steps(compilers.oracle, readFile, s, args);
        exitCode == ExitCode(final) && reports == final.reports
    {
      ProcessArguments(args, s);
      ghost var final := Steps(compilers.oracle, readFile, s, args);
      if numCompiles == 0 && failCode == ESuccess {
        failCode := EFailUsage;
      }
      exitCode := failCode;
      Teardown(final.(failCode := failCode));
    }

    /** The six `sh::Destruct` calls after the loop, one slot after the other. */
    method Teardown(ghost s: Session)
      requires Models(s) && Inv(s)
      modifies this, compilers
      ensures compilers.Valid() && handles == map[] && compilers.live == map[] && reports == s.reports
    {
      ghost var t := s;
      var k := 0;
      while k < |TeardownOrder|
        invariant 0 <= k <= |TeardownOrder|
        invariant Models(t) && Inv(t) && t.reports == s.reports
        invariant forall j | 0 <= j < k :: TeardownOrder[j] !in handles
      {
        DestructSlot(TeardownOrder[k], t);
        ReleaseInv(t, TeardownOrder[k]);
        t := Release(t, TeardownOrder[k]);
        k := k + 1;
      }
      forall st: Stage ensures st !in handles {
        var j := TeardownIndex(st);
      }
      assert handles.Keys == {};
      assert compilers.live.Keys == {};
    }
  }

  /** `main` with `--json-rpc` as its first argument serves standard input; otherwise it runs the command line. */
  predicate JsonRpcMode(args: seq<string>) {
    |args| > 0 && CStr(args[0]) == "--json-rpc"
  }

  /** `main` in command-line mode, from `sh::Initialize` on: a fresh session over the arguments after the program name. */
  method RunCommandLine(compilers: Compilers, readFile: FileReader, args: seq<string>) returns (exitCode: int, reports: seq<Report>)
    requires compilers.Valid() && compilers.live == map[]
    modifies compilers
    ensures compilers.Valid() && compilers.live == map[]
    ensures var final := Steps(compilers.oracle, readFile, Initial(compilers.oracle, old(compilers.next)), args);
      exitCode == ExitCode(final) && reports == final.reports
  {
    var session := new CliSession(compilers, readFile);
    InitialInv(compilers.oracle, compilers.next);
    exitCode := session.Run(args, Initial(compilers.oracle, compilers.next));
    reports := session.reports;
  }

  // ---------------------------------------------------------------------
  // The slot invariant
  // ---------------------------------------------------------------------

  /** Removing a present key removes one entry. */
  lemma RemoveKeyCount<K, V>(m: map<K, V>, k: K)
    requires k in m
    ensures |m - {k}| == |m| - 1
  {
    assert (m - {k}).Keys == m.Keys - {k};
  }

  lemma InitialInv(oracle: Oracle, next: nat)
    ensures Inv(Initial(oracle, next))
  {
  }

  lemma AcquireInv(oracle: Oracle, s: Session, stage: Stage)
    requires Inv(s)
    ensures Inv(Acquire(oracle, s, stage))
  {
    if stage !in s.slots {
      var settings := s.settings.(resources := StageResources(s.settings.resources, stage));
      var config := Config(stage, settings.spec, settings.output, settings.resources);
      if oracle.constructs(config) {
        AddSlotInv(s.(settings := settings), stage, config);
      }
    }
  }

  /** Filling an empty slot with the next handle keeps the invariant. */
  lemma AddSlotInv(s: Session, stage: Stage, config: Config)
    requires Inv(s) && stage !in s.slots
    ensures Inv(s.(slots := s.slots[stage := s.library.next],
                   library := s.library.(live := s.library.live[s.library.next := config], next := s.library.next + 1)))
  {
    var h := s.library.next;
    assert h !in s.library.live;
    assert |s.library.live[h := config]| == |s.library.live| + 1;
    assert |s.slots[stage := h]| == |s.slots| + 1;
  }

  lemma CompileInSlotInv(oracle: Oracle, readFile: FileReader, s: Session, stage: Stage, fileName: string)
    requires Inv(s) && stage in s.slots
    ensures Inv(CompileInSlot(oracle, readFile, s, stage, fileName))
  {
  }

  lemma StepInv(oracle: Oracle, readFile: FileReader, s: Session, arg: string)
    requires Inv(s)
    ensures Inv(Step(oracle, readFile, s, arg))
  {
    if CharAt(arg, 0) != '-' {
      var stage := FindShaderType(CStr(arg));
      var raised := s.(settings := RaiseLimits(s.settings));
      AcquireInv(oracle, raised, stage);
      if stage in Acquire(oracle, raised, stage).slots {
        CompileInSlotInv(oracle, readFile, Acquire(oracle, raised, stage), stage, arg);
      }
    }
  }

  lemma ReleaseInv(s: Session, stage: Stage)
    requires Inv(s)
    ensures Inv(Release(s, stage))
  {
    if stage in s.slots {
      RemoveKeyCount(s.slots, stage);
      RemoveKeyCount(s.library.live, s.slots[stage]);
    }
  }
}
