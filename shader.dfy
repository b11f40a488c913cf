/**
 * The translator's vocabulary for ANGLE: shader stages, shader specs, output
 * languages, compile options, the built-in resource record, and the small
 * lookups and parsers that produce them (`FindShaderTypeFromJson`,
 * `FindShaderType`, `ParseGLSLOutputVersion`, `ParseIntValue`,
 * `GenerateResources`).
 */
module ShaderTypes {
  import opened Wrappers
  import opened Text

  /** The shader stages (GL_*_SHADER enums); GL_NONE is the None of an Option<Stage>. */
  datatype Stage = Vertex | Fragment | Compute | Geometry | TessControl | TessEval

  /** ShShaderSpec values the translator selects. */
  datatype Spec = Gles2 | Gles3 | Gles31 | Gles32 | Webgl | Webgl2 | Webgl3

  /** ShShaderOutput values the translator selects; `Glsl(v)` is SH_GLSL_v_OUTPUT. */
  datatype Output = Essl | GlslCompatibility | Glsl(version: int) | Spirv | Hlsl30 | Hlsl41 | Msl

  const GlslVersions: set<int> := {130, 140, 150, 330, 400, 410, 420, 430, 440, 450}

  /** The ShCompileOptions fields the translator sets; `{}` leaves every one false. */
  datatype CompileOptions = CompileOptions(
    intermediateTree: bool,
    objectCode: bool,
    initializeUninitializedLocals: bool,
    initializeBuiltinsForInstancedMultiview: bool,
    selectViewInNvGLSLVertexShader: bool)

  const NoOptions := CompileOptions(false, false, false, false, false)

  /** Whether `resources.HashFunction` is FNVHashFunction or nullptr. */
  datatype HashFunction = NoHashFunction | FnvHashFunction

  /** The ShBuiltInResources fields the translator reads or writes. */
  datatype Resources = Resources(
    MaxVertexAttribs: int,
    MaxVertexUniformVectors: int,
    MaxVaryingVectors: int,
    MaxVertexTextureImageUnits: int,
    MaxCombinedTextureImageUnits: int,
    MaxTextureImageUnits: int,
    MaxFragmentUniformVectors: int,
    MaxDrawBuffers: int,
    MaxDualSourceDrawBuffers: int,
    FragmentPrecisionHigh: int,
    OES_standard_derivatives: int,
    OES_EGL_image_external: int,
    ARB_texture_rectangle: int,
    EXT_blend_func_extended: int,
    EXT_draw_buffers: int,
    EXT_frag_depth: int,
    EXT_shader_texture_lod: int,
    EXT_shader_framebuffer_fetch: int,
    NV_shader_framebuffer_fetch: int,
    ARM_shader_framebuffer_fetch: int,
    OVR_multiview: int,
    OVR_multiview2: int,
    EXT_YUV_target: int,
    OES_sample_variables: int,
    EXT_geometry_shader: int,
    EXT_tessellation_shader: int,
    ANGLE_texture_multisample: int,
    APPLE_clip_distance: int,
    HashFunction: HashFunction)

  /**
   * `GenerateResources`: the record `sh::InitBuiltInResources` fills (the
   * parameter `init`) with the translator's fixed limits on top.
   */
  function GenerateResources(init: Resources): (r: Resources)
    ensures r.MaxVertexAttribs == 8 && r.MaxVertexUniformVectors == 128 && r.MaxVaryingVectors == 8
    ensures r.MaxVertexTextureImageUnits == 0 && r.MaxCombinedTextureImageUnits == 8 && r.MaxTextureImageUnits == 8
    ensures r.MaxFragmentUniformVectors == 16 && r.MaxDrawBuffers == 1 && r.MaxDualSourceDrawBuffers == 1
    ensures r.OES_standard_derivatives == 0 && r.OES_EGL_image_external == 0 && r.EXT_geometry_shader == 1
    ensures r.ANGLE_texture_multisample == 0 && r.APPLE_clip_distance == 0
    ensures r.FragmentPrecisionHigh == init.FragmentPrecisionHigh && r.HashFunction == init.HashFunction
    ensures r.EXT_draw_buffers == init.EXT_draw_buffers && r.EXT_tessellation_shader == init.EXT_tessellation_shader
    ensures r.ARB_texture_rectangle == init.ARB_texture_rectangle && r.EXT_blend_func_extended == init.EXT_blend_func_extended
    ensures r.EXT_frag_depth == init.EXT_frag_depth && r.EXT_shader_texture_lod == init.EXT_shader_texture_lod
    ensures r.EXT_shader_framebuffer_fetch == init.EXT_shader_framebuffer_fetch
    ensures r.NV_shader_framebuffer_fetch == init.NV_shader_framebuffer_fetch
    ensures r.ARM_shader_framebuffer_fetch == init.ARM_shader_framebuffer_fetch
    ensures r.OVR_multiview == init.OVR_multiview && r.OVR_multiview2 == init.OVR_multiview2
    ensures r.EXT_YUV_target == init.EXT_YUV_target && r.OES_sample_variables == init.OES_sample_variables
  {
    init.(
      MaxVertexAttribs := 8,
      MaxVertexUniformVectors := 128,
      MaxVaryingVectors := 8,
      MaxVertexTextureImageUnits := 0,
      MaxCombinedTextureImageUnits := 8,
      MaxTextureImageUnits := 8,
      MaxFragmentUniformVectors := 16,
      MaxDrawBuffers := 1,
      MaxDualSourceDrawBuffers := 1,
      OES_standard_derivatives := 0,
      OES_EGL_image_external := 0,
      EXT_geometry_shader := 1,
      ANGLE_texture_multisample := 0,
      APPLE_clip_distance := 0)
  }

  /** The specs after which the translator raises texture units and draw buffers. */
  predicate RaisesLimits(spec: Spec) {
    spec != Gles2 && spec != Webgl
  }

  /** The name a JSON request uses for a stage. */
  function StageName(stage: Stage): string {
    match stage
    case Vertex => "vertex"
    case Fragment => "fragment"
    case Compute => "compute"
    case Geometry => "geometry"
    case TessControl => "tess_control"
    case TessEval => "tess_eval"
  }

  /** `FindShaderTypeFromJson`: the stage of a request's `shader_type`, None for GL_NONE. */
  function FindShaderTypeFromJson(typeName: string): (r: Option<Stage>)
    ensures r.Some? ==> StageName(r.value) == typeName
    ensures r.None? ==> forall stage: Stage :: StageName(stage) != typeName
  {
    if typeName == "vertex" then Some(Vertex)
    else if typeName == "fragment" then Some(Fragment)
    else if typeName == "compute" then Some(Compute)
    else if typeName == "geometry" then Some(Geometry)
    else if typeName == "tess_control" then Some(TessControl)
    else if typeName == "tess_eval" then Some(TessEval)
    else None
  }

  /** Every stage is reached from its own name, so the lookup is a bijection onto the six names. */
  lemma StageNameRoundTrip(stage: Stage)
    ensures FindShaderTypeFromJson(StageName(stage)) == Some(stage)
  {
  }

  /** `strrchr(s, '.')`: the index of the last '.', None when there is none. */
  function LastDot(s: string): (r: Option<nat>)
    ensures r.Some? ==> r.value < |s| && s[r.value] == '.' && forall i | r.value < i < |s| :: s[i] != '.'
    ensures r.None? ==> forall i | 0 <= i < |s| :: s[i] != '.'
    decreases |s|
  {
    if s == [] then None
    else if s[|s| - 1] == '.' then Some(|s| - 1)
    else LastDot(s[..|s| - 1])
  }

  /**
   * `FindShaderType`: the stage named by the text from the last '.' on.
   * `strncmp(ext, ".frag", 5)` compares five characters, so ".frag" and its
   * three siblings match as prefixes, while the five characters of ".tcs" and
   * ".tes" include their terminating NUL, so those must match exactly.
   */
  function FindShaderType(fileName: string): (stage: Stage)
    ensures (forall i | 0 <= i < |fileName| :: fileName[i] != '.') ==> stage == Fragment
  {
    match LastDot(fileName)
    case None => Fragment
    case Some(k) =>
      var ext := fileName[k..];
      if StartsWith(ext, ".frag") then Fragment
      else if StartsWith(ext, ".vert") then Vertex
      else if StartsWith(ext, ".comp") then Compute
      else if StartsWith(ext, ".geom") then Geometry
      else if ext == ".tcs" then TessControl
      else if ext == ".tes" then TessEval
      else Fragment
  }

  /**
   * The stage a file name selects, stated on its extension (a '.' followed by
   * no other '.'); every other extension (".txt", ".sl", ".") is a fragment shader.
   */
  lemma FindShaderTypeByExtension(base: string, ext: string)
    requires |ext| >= 1 && ext[0] == '.' && forall i | 1 <= i < |ext| :: ext[i] != '.'
    ensures StartsWith(ext, ".frag") ==> FindShaderType(base + ext) == Fragment
    ensures StartsWith(ext, ".vert") ==> FindShaderType(base + ext) == Vertex
    ensures StartsWith(ext, ".comp") ==> FindShaderType(base + ext) == Compute
    ensures StartsWith(ext, ".geom") ==> FindShaderType(base + ext) == Geometry
    ensures ext == ".tcs" ==> FindShaderType(base + ext) == TessControl
    ensures ext == ".tes" ==> FindShaderType(base + ext) == TessEval
    ensures StartsWith(ext, ".tcs") && ext != ".tcs" ==> FindShaderType(base + ext) == Fragment
    ensures StartsWith(ext, ".tes") && ext != ".tes" ==> FindShaderType(base + ext) == Fragment
    ensures (!(StartsWith(ext, ".frag") || StartsWith(ext, ".vert") || StartsWith(ext, ".comp") || StartsWith(ext, ".geom"))
             && ext != ".tcs" && ext != ".tes") ==> FindShaderType(base + ext) == Fragment
  {
    var s := base + ext;
    var k := LastDot(s);
    assert s[|base|] == '.';
    assert k.Some? && k.value == |base| by {
      forall i | |base| < i < |s| ensures s[i] != '.' {
        assert s[i] == ext[i - |base|];
      }
    }
    assert s[|base|..] == ext;
    if StartsWith(ext, ".tcs") || StartsWith(ext, ".tes") {
      assert ext[1] == 't' && ext[3] == 's';
      assert !StartsWith(ext, ".frag") && !StartsWith(ext, ".vert");
      assert !StartsWith(ext, ".comp") && !StartsWith(ext, ".geom");
    }
  }

  /** `ParseGLSLOutputVersion`: "" is the compatibility profile, otherwise one of the listed versions. */
  function ParseGLSLOutputVersion(num: string): (r: Option<Output>)
    ensures num == [] ==> r == Some(GlslCompatibility)
    ensures num != [] && r.Some? ==>
      r.value.Glsl? && r.value.version in GlslVersions && ParseInt(num) == Some(r.value.version)
    ensures num != [] && ParseInt(num).Some? && ParseInt(num).value in GlslVersions ==> r.Some?
  {
    if num == [] then Some(GlslCompatibility)
    else
      match ParseInt(num)
      case Some(v) => if v in GlslVersions then Some(Glsl(v)) else None
      case None => None
  }

  /** Every listed version is accepted when written in decimal. */
  lemma GlslVersionRoundTrip(v: int)
    requires v in GlslVersions
    ensures ParseGLSLOutputVersion(ToDecimal(v)) == Some(Glsl(v))
  {
    ParseIntToDecimal(v);
  }

  /** `ParseIntValue`: the default for "", otherwise the decimal value; None leaves the target unchanged. */
  function ParseIntValue(num: string, emptyDefault: int): (r: Option<int>)
    ensures num == [] ==> r == Some(emptyDefault)
    ensures num != [] ==> r == ParseInt(num)
  {
    if num == [] then Some(emptyDefault) else ParseInt(num)
  }
}
