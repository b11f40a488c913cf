/**
 * The first half of `handle_translate_request`: validating the `params`
 * object of a "translate" call and turning it into a typed request (source
 * text, stage, spec, output, compile options and the resource record), or
 * into the error payload of the first check that fails.
 *
 * `DecodeParams` and its phases are the specification; `DecodeTranslateParams`
 * is the handler's own step-by-step code with early returns, proved equal to it.
 */
module Request {
  import opened Wrappers
  import opened JsonValues
  import opened Errors
  import opened Text
  import opened ShaderTypes
  import Base64

  /** Everything the handler has gathered when it reaches `sh::ConstructCompiler`. */
  datatype TranslateRequest = TranslateRequest(
    source: string,
    stage: Stage,
    spec: Spec,
    output: Output,
    options: CompileOptions,
    resources: Resources,
    printActiveVariables: bool)

  /** An Invalid Params payload without data. */
  predicate IsInvalidParams(e: Json) {
    IsErrorPayload(e) && Get(e, "code") == JInt(EFailJSONRPCInvalidParams) && !Contains(e, "data")
  }

  /** The error payload of a rejected parameter: code -32602, the message, no data. */
  function InvalidParams(message: string): (e: Json)
    ensures IsInvalidParams(e) && Get(e, "message") == JString(message)
  {
    MakeErrorPayload(EFailJSONRPCInvalidParams, message, JNull)
  }

  // ---------------------------------------------------------------------
  // The phases, in the order the handler checks them
  // ---------------------------------------------------------------------

  /** Phase 1: `shader_code_base64` must be a string that decodes to something unless it is empty. */
  function SourceOf(params: Json): (res: Result<string, Json>)
    ensures res.Err? ==> IsInvalidParams(res.error)
  {
    if !Contains(params, "shader_code_base64") then
      Err(InvalidParams("Missing 'shader_code_base64' parameter."))
    else if !Get(params, "shader_code_base64").JString? then
      Err(InvalidParams("'shader_code_base64' parameter must be a string."))
    else
      var encoded := Get(params, "shader_code_base64").s;
      var decoded := Base64.BytesToString(Base64.DecodeSpec(encoded));
      if decoded == [] && encoded != [] then Err(InvalidParams("Failed to decode 'shader_code_base64'."))
      else Ok(decoded)
  }

  /** Phase 2: `shader_type` must be a string naming one of the six stages. */
  function StageOf(params: Json): (res: Result<Stage, Json>)
    ensures res.Err? ==> IsInvalidParams(res.error)
  {
    if !Contains(params, "shader_type") then Err(InvalidParams("Missing 'shader_type' parameter."))
    else if !Get(params, "shader_type").JString? then Err(InvalidParams("'shader_type' parameter must be a string."))
    else
      var name := Get(params, "shader_type").s;
      match FindShaderTypeFromJson(name)
      case Some(stage) => Ok(stage)
      case None => Err(InvalidParams("Unsupported 'shader_type': " + name))
  }

  /** The spec names a request may give; "webgln" is WebGL 1.0 without highp. */
  function SpecFromName(name: string): (r: Option<Spec>)
    ensures r.Some? <==> name in {"gles2", "gles3", "gles31", "gles32", "webgl", "webgl2", "webgl3", "webgln"}
    ensures name == "gles2" ==> r == Some(Gles2)
    ensures name == "gles3" ==> r == Some(Gles3)
    ensures name == "gles31" ==> r == Some(Gles31)
    ensures name == "gles32" ==> r == Some(Gles32)
    ensures name == "webgl" ==> r == Some(Webgl)
    ensures name == "webgl2" ==> r == Some(Webgl2)
    ensures name == "webgl3" ==> r == Some(Webgl3)
    ensures name == "webgln" ==> r == Some(Webgl)
  {
    if name == "gles2" then Some(Gles2)
    else if name == "gles3" then Some(Gles3)
    else if name == "gles31" then Some(Gles31)
    else if name == "gles32" then Some(Gles32)
    else if name == "webgl" then Some(Webgl)
    else if name == "webgl2" then Some(Webgl2)
    else if name == "webgl3" then Some(Webgl3)
    else if name == "webgln" then Some(Webgl)
    else None
  }

  /** Phase 3: `spec` is optional (GLES 2 by default) and must name a spec when present. */
  function SpecOf(params: Json): (res: Result<Spec, Json>)
    ensures res.Err? ==> IsInvalidParams(res.error)
  {
    if !Contains(params, "spec") then Ok(Gles2)
    else if !Get(params, "spec").JString? then Err(InvalidParams("'spec' parameter must be a string."))
    else
      var name := Get(params, "spec").s;
      match SpecFromName(name)
      case Some(spec) => Ok(spec)
      case None => Err(InvalidParams("Unsupported 'spec': " + name))
  }

  /** `params.value("spec", "") == "webgln"`. */
  predicate IsWebgln(params: Json) {
    Contains(params, "spec") && Get(params, "spec") == JString("webgln")
  }

  /** The resource changes made right after the spec is read. */
  function SpecLimits(spec: Spec, webgln: bool, r: Resources): Resources {
    var r := if webgln then r.(FragmentPrecisionHigh := 0) else r;
    var r := if RaisesLimits(spec) then
      r.(MaxVertexTextureImageUnits := 16, MaxCombinedTextureImageUnits := 32,
         MaxTextureImageUnits := 16, MaxDrawBuffers := 4)
    else r;
    if spec in {Webgl2, Gles3, Gles31, Gles32} then r.(MaxDrawBuffers := 8) else r
  }

  /**
   * The `output` string: "glsl" or "hlsl" followed by at least one character
   * splits into a type and a version, anything else is a type on its own.
   */
  function ParseOutput(full: string): (res: Result<Output, Json>)
    ensures res.Err? ==> IsInvalidParams(res.error)
  {
    var split := (StartsWith(full, "glsl") || StartsWith(full, "hlsl")) && |full| > 4;
    var typeName := if split then full[..4] else full;
    var version := if split then full[4..] else [];
    if typeName == "essl" then Ok(Essl)
    else if typeName == "glsl" then
      match ParseGLSLOutputVersion(version)
      case Some(output) => Ok(output)
      case None => Err(InvalidParams("Unsupported 'output' GLSL version: " + version))
    else if typeName == "spirv" then Ok(Spirv)
    else if typeName == "hlsl" then
      if version == "9" then Ok(Hlsl30)
      else if version == "11" then Ok(Hlsl41)
      else Err(InvalidParams("Unsupported 'output' HLSL version: " + version))
    else if typeName == "msl" then Ok(Msl)
    else Err(InvalidParams("Unsupported 'output' type: " + typeName))
  }

  /** Phase 4: `output` is optional (ESSL by default) and must parse when present. */
  function OutputOf(params: Json): (res: Result<Output, Json>)
    ensures res.Err? ==> IsInvalidParams(res.error)
  {
    if !Contains(params, "output") then Ok(Essl)
    else if !Get(params, "output").JString? then Err(InvalidParams("'output' parameter must be a string."))
    else ParseOutput(Get(params, "output").s)
  }

  /** The five compile options a request may set. */
  const OptionKeys: set<string> := {"intermediate_tree", "object_code", "initialize_uninitialized_locals",
    "initialize_builtins_for_instanced_multiview", "select_view_in_nv_glsl_vertex_shader"}

  /**
   * A present `compile_options` object gives every known key a boolean
   * value: `co.value(key, default)` throws on any other type.
   */
  predicate OptionsWellTyped(params: Json) {
    Contains(params, "compile_options") && Get(params, "compile_options").JObject? ==>
      var co := Get(params, "compile_options").fields;
      forall key | key in OptionKeys && key in co :: co[key].JBool?
  }

  /**
   * The handler reaches block 5, where `co.value` reads the options, only
   * when the source, the stage, the spec and the output were accepted; only
   * then must the options be well typed.
   */
  predicate Decodable(params: Json) {
    SourceOf(params).Ok? && StageOf(params).Ok? && SpecOf(params).Ok? && OutputOf(params).Ok? ==>
      OptionsWellTyped(params)
  }

  /** The options `co.value` reads out of a `compile_options` object. */
  function OptionsFrom(co: map<string, Json>): CompileOptions
    requires forall key | key in OptionKeys && key in co :: co[key].JBool?
  {
    CompileOptions(
      BoolValue(co, "intermediate_tree", false),
      BoolValue(co, "object_code", true),
      BoolValue(co, "initialize_uninitialized_locals", true),
      BoolValue(co, "initialize_builtins_for_instanced_multiview", false),
      BoolValue(co, "select_view_in_nv_glsl_vertex_shader", false))
  }

  /** Phase 5: `compile_options` is optional and must be an object when present. */
  function OptionsOf(params: Json): (res: Result<CompileOptions, Json>)
    requires OptionsWellTyped(params)
    ensures res.Err? ==> IsInvalidParams(res.error)
  {
    if !Contains(params, "compile_options") then Ok(NoOptions.(objectCode := true, initializeUninitializedLocals := true))
    else if !Get(params, "compile_options").JObject? then Err(InvalidParams("'compile_options' must be an object."))
    else Ok(OptionsFrom(Get(params, "compile_options").fields))
  }

  /** Phase 6: the three `resources` members the handler copies, each checked for its type. */
  function ResourceParams(params: Json, r: Resources): (res: Result<Resources, Json>)
    ensures res.Err? ==> IsInvalidParams(res.error)
  {
    if !Contains(params, "resources") then Ok(r)
    else if !Get(params, "resources").JObject? then Err(InvalidParams("'resources' must be an object."))
    else
      var f := Get(params, "resources").fields;
      if "EnableNameHashing" in f && !f["EnableNameHashing"].JBool? then
        Err(InvalidParams("resources.EnableNameHashing must be a boolean."))
      else
        var r := if "EnableNameHashing" !in f then r
          else r.(HashFunction := if f["EnableNameHashing"].b then FnvHashFunction else NoHashFunction);
        if "MaxVertexAttribs" in f && !f["MaxVertexAttribs"].JInt? then
          Err(InvalidParams("resources.MaxVertexAttribs must be an integer."))
        else
          var r := if "MaxVertexAttribs" in f then r.(MaxVertexAttribs := f["MaxVertexAttribs"].i) else r;
          if "OES_EGL_image_external" in f && !f["OES_EGL_image_external"].JInt? then
            Err(InvalidParams("resources.OES_EGL_image_external must be an integer (0 or 1)."))
          else
            Ok(if "OES_EGL_image_external" in f then r.(OES_EGL_image_external := f["OES_EGL_image_external"].i) else r)
  }

  /** Whether the request's `resources` object has the given member. */
  predicate HasResourceKey(params: Json, key: string) {
    Contains(params, "resources") && Contains(Get(params, "resources"), key)
  }

  /** The adjustments after the `resources` block: only the presence of two keys matters. */
  function FinalLimits(params: Json, spec: Spec, r: Resources): Resources {
    var r := if RaisesLimits(spec) && !HasResourceKey(params, "MaxDrawBuffers") then r.(MaxDrawBuffers := 8) else r;
    if spec == Webgl && IsWebgln(params) then r.(FragmentPrecisionHigh := 0)
    else if spec == Webgl && !HasResourceKey(params, "FragmentPrecisionHigh") then r.(FragmentPrecisionHigh := 1)
    else r
  }

  /** The resource record of a request for `spec`: the limits the spec raises, then block 6, then the final adjustments. */
  function ResourcesFor(params: Json, spec: Spec, init: Resources): (res: Result<Resources, Json>)
    ensures res.Err? ==> IsInvalidParams(res.error)
  {
    var copied :- ResourceParams(params, SpecLimits(spec, IsWebgln(params), GenerateResources(init)));
    Ok(FinalLimits(params, spec, copied))
  }

  /** Phase 7: `print_active_variables` is optional (false) and must be a boolean when present. */
  function PrintActiveOf(params: Json): (res: Result<bool, Json>)
    ensures res.Err? ==> IsInvalidParams(res.error)
  {
    if !Contains(params, "print_active_variables") then Ok(false)
    else if !Get(params, "print_active_variables").JBool? then
      Err(InvalidParams("'print_active_variables' must be a boolean."))
    else Ok(Get(params, "print_active_variables").b)
  }

  /**
   * The request `params` describe, or the error payload of the first phase
   * that rejects them; `init` is the record `sh::InitBuiltInResources` fills.
   */
  function DecodeParams(params: Json, init: Resources): (res: Result<TranslateRequest, Json>)
    requires Decodable(params)
    ensures res.Err? ==> IsInvalidParams(res.error)
  {
    var source :- SourceOf(params);
    var stage :- StageOf(params);
    var spec :- SpecOf(params);
    var output :- OutputOf(params);
    var options :- OptionsOf(params);
    var resources :- ResourcesFor(params, spec, init);
    var printActive :- PrintActiveOf(params);
    Ok(TranslateRequest(source, stage, spec, output, options, resources, printActive))
  }

  // ---------------------------------------------------------------------
  // The handler's own code
  // ---------------------------------------------------------------------

  /** `handle_translate_request` up to the compiler construction, block by block with early returns. */
  method DecodeTranslateParams(params: Json, init: Resources) returns (r: Result<TranslateRequest, Json>)
    requires Decodable(params)
    ensures r == DecodeParams(params, init)
  {
    var resources := GenerateResources(init);

    var source := ReadSource(params);
    if source.Err? {
      return Err(source.error);
    }

    if !Contains(params, "shader_type") {
      return Err(InvalidParams("Missing 'shader_type' parameter."));
    }
    if !Get(params, "shader_type").JString? {
      return Err(InvalidParams("'shader_type' parameter must be a string."));
    }
    var typeName := Get(params, "shader_type").s;
    var stage := FindShaderTypeFromJson(typeName);
    if stage.None? {
      return Err(InvalidParams("Unsupported 'shader_type': " + typeName));
    }
    assert StageOf(params) == Ok(stage.value);

    var spec := ReadSpec(params, resources);
    if spec.Err? {
      return Err(spec.error);
    }
    resources := spec.value.1;

    var output := ReadOutput(params);
    if output.Err? {
      return Err(output.error);
    }

    var options := ReadOptions(params);
    if options.Err? {
      return Err(options.error);
    }

    var copied := ReadResources(params, resources);
    if copied.Err? {
      return Err(copied.error);
    }
    resources := AdjustLimits(params, spec.value.0, copied.value);

    var printActive := false;
    if Contains(params, "print_active_variables") {
      if !Get(params, "print_active_variables").JBool? {
        return Err(InvalidParams("'print_active_variables' must be a boolean."));
      }
      printActive := Get(params, "print_active_variables").b;
    }
    return Ok(TranslateRequest(source.value, stage.value, spec.value.0, output.value, options.value, resources, printActive));
  }

  /** Block 1: read and decode `shader_code_base64`. */
  method ReadSource(params: Json) returns (r: Result<string, Json>)
    ensures r == SourceOf(params)
  {
    if !Contains(params, "shader_code_base64") {
      return Err(InvalidParams("Missing 'shader_code_base64' parameter."));
    }
    if !Get(params, "shader_code_base64").JString? {
      return Err(InvalidParams("'shader_code_base64' parameter must be a string."));
    }
    var encoded := Get(params, "shader_code_base64").s;
    var decoded := Base64.DecodeToString(encoded);
    if decoded == [] && encoded != [] {
      return Err(InvalidParams("Failed to decode 'shader_code_base64'."));
    }
    return Ok(decoded);
  }

  /** Block 3: read `spec` and raise the limits it calls for. */
  method ReadSpec(params: Json, resources: Resources) returns (r: Result<(Spec, Resources), Json>)
    ensures SpecOf(params).Err? ==> r == Err(SpecOf(params).error)
    ensures SpecOf(params).Ok? ==>
      r == Ok((SpecOf(params).value, SpecLimits(SpecOf(params).value, IsWebgln(params), resources)))
  {
    var resources := resources;
    var spec := Gles2;
    if Contains(params, "spec") {
      if !Get(params, "spec").JString? {
        return Err(InvalidParams("'spec' parameter must be a string."));
      }
      var name := Get(params, "spec").s;
      if name == "gles2" {
        spec := Gles2;
      } else if name == "gles3" {
        spec := Gles3;
      } else if name == "gles31" {
        spec := Gles31;
      } else if name == "gles32" {
        spec := Gles32;
      } else if name == "webgl" {
        spec := Webgl;
      } else if name == "webgl2" {
        spec := Webgl2;
      } else if name == "webgl3" {
        spec := Webgl3;
      } else if name == "webgln" {
        spec := Webgl;
        resources := resources.(FragmentPrecisionHigh := 0);
      } else {
        return Err(InvalidParams("Unsupported 'spec': " + name));
      }
    }
    if spec != Gles2 && spec != Webgl {
      resources := resources.(MaxVertexTextureImageUnits := 16);
      resources := resources.(MaxCombinedTextureImageUnits := 32);
      resources := resources.(MaxTextureImageUnits := 16);
      resources := resources.(MaxDrawBuffers := 4);
    }
    if spec == Webgl2 || spec == Gles3 || spec == Gles31 || spec == Gles32 {
      resources := resources.(MaxDrawBuffers := 8);
    }
    return Ok((spec, resources));
  }

  /** Block 4: read `output`. */
  method ReadOutput(params: Json) returns (r: Result<Output, Json>)
    ensures r == OutputOf(params)
  {
    if !Contains(params, "output") {
      return Ok(Essl);
    }
    if !Get(params, "output").JString? {
      return Err(InvalidParams("'output' parameter must be a string."));
    }
    var full := Get(params, "output").s;
    var typeName, version;
    if StartsWith(full, "glsl") && |full| > 4 {
      typeName, version := "glsl", full[4..];
    } else if StartsWith(full, "hlsl") && |full| > 4 {
      typeName, version := "hlsl", full[4..];
    } else {
      typeName, version := full, "";
    }
    if typeName == "essl" {
      return Ok(Essl);
    } else if typeName == "glsl" {
      var parsed := ParseGLSLOutputVersion(version);
      if parsed.None? {
        return Err(InvalidParams("Unsupported 'output' GLSL version: " + version));
      }
      return Ok(parsed.value);
    } else if typeName == "spirv" {
      return Ok(Spirv);
    } else if typeName == "hlsl" {
      if version == "9" {
        return Ok(Hlsl30);
      } else if version == "11" {
        return Ok(Hlsl41);
      }
      return Err(InvalidParams("Unsupported 'output' HLSL version: " + version));
    } else if typeName == "msl" {
      return Ok(Msl);
    }
    return Err(InvalidParams("Unsupported 'output' type: " + typeName));
  }

  /** Block 5: read `compile_options`, field by field. */
  method ReadOptions(params: Json) returns (r: Result<CompileOptions, Json>)
    requires OptionsWellTyped(params)
    ensures r == OptionsOf(params)
  {
    var options := NoOptions;
    if Contains(params, "compile_options") {
      if !Get(params, "compile_options").JObject? {
        return Err(InvalidParams("'compile_options' must be an object."));
      }
      var co := Get(params, "compile_options").fields;
      options := options.(intermediateTree := BoolValue(co, "intermediate_tree", false));
      options := options.(objectCode := BoolValue(co, "object_code", true));
      options := options.(initializeUninitializedLocals := BoolValue(co, "initialize_uninitialized_locals", true));
      options := options.(initializeBuiltinsForInstancedMultiview :=
        BoolValue(co, "initialize_builtins_for_instanced_multiview", false));
      options := options.(selectViewInNvGLSLVertexShader := BoolValue(co, "select_view_in_nv_glsl_vertex_shader", false));
    } else {
      options := options.(objectCode := true);
      options := options.(initializeUninitializedLocals := true);
    }
    return Ok(options);
  }

  /** Block 6: copy the three `resources` members the handler knows. */
  method ReadResources(params: Json, resources: Resources) returns (r: Result<Resources, Json>)
    ensures r == ResourceParams(params, resources)
  {
    var resources := resources;
    if Contains(params, "resources") {
      if !Get(params, "resources").JObject? {
        return Err(InvalidParams("'resources' must be an object."));
      }
      var f := Get(params, "resources").fields;
      if "EnableNameHashing" in f {
        if !f["EnableNameHashing"].JBool? {
          return Err(InvalidParams("resources.EnableNameHashing must be a boolean."));
        }
        if f["EnableNameHashing"].b {
          resources := resources.(HashFunction := FnvHashFunction);
        } else {
          resources := resources.(HashFunction := NoHashFunction);
        }
      }
      if "MaxVertexAttribs" in f {
        if !f["MaxVertexAttribs"].JInt? {
          return Err(InvalidParams("resources.MaxVertexAttribs must be an integer."));
        }
        resources := resources.(MaxVertexAttribs := f["MaxVertexAttribs"].i);
      }
      if "OES_EGL_image_external" in f {
        if !f["OES_EGL_image_external"].JInt? {
          return Err(InvalidParams("resources.OES_EGL_image_external must be an integer (0 or 1)."));
        }
        resources := resources.(OES_EGL_image_external := f["OES_EGL_image_external"].i);
      }
    }
    return Ok(resources);
  }

  /** The adjustments after block 6. */
  method AdjustLimits(params: Json, spec: Spec, resources: Resources) returns (r: Resources)
    ensures r == FinalLimits(params, spec, resources)
  {
    r := resources;
    if spec != Gles2 && spec != Webgl {
      var overridden := Contains(params, "resources") && Get(params, "resources").JObject?;
      if !overridden || !("MaxDrawBuffers" in Get(params, "resources").fields) {
        r := r.(MaxDrawBuffers := 8);
      }
    }
    if spec == Webgl && IsWebgln(params) {
      r := r.(FragmentPrecisionHigh := 0);
    } else if spec == Webgl {
      var overridden := Contains(params, "resources") && Get(params, "resources").JObject?;
      if !overridden || !("FragmentPrecisionHigh" in Get(params, "resources").fields) {
        r := r.(FragmentPrecisionHigh := 1);
      }
    }
  }
}

module RequestProperties {
  import opened Wrappers
  import opened JsonValues
  import opened Errors
  import opened Text
  import opened ShaderTypes
  import opened Request
  import Base64

  /** The spec name a request gives, "gles2" when it gives none. */
  function RequestedSpec(params: Json): string {
    if Contains(params, "spec") && Get(params, "spec").JString? then Get(params, "spec").s else "gles2"
  }

  /** An accepted request is assembled from what every phase accepted. */
  lemma DecodedFromPhases(params: Json, init: Resources)
    requires Decodable(params) && DecodeParams(params, init).Ok?
    ensures SourceOf(params).Ok? && StageOf(params).Ok? && SpecOf(params).Ok? && OutputOf(params).Ok?
    ensures OptionsOf(params).Ok? && PrintActiveOf(params).Ok? && ResourcesFor(params, SpecOf(params).value, init).Ok?
    ensures DecodeParams(params, init).value == TranslateRequest(
        SourceOf(params).value, StageOf(params).value, SpecOf(params).value, OutputOf(params).value,
        OptionsOf(params).value, ResourcesFor(params, SpecOf(params).value, init).value, PrintActiveOf(params).value)
  {
  }

  /** The spec a request names, and whether it is the no-highp WebGL variant. */
  lemma SpecFromRequest(params: Json, spec: Spec)
    requires SpecOf(params) == Ok(spec)
    ensures var name := RequestedSpec(params);
      && (IsWebgln(params) <==> name == "webgln")
      && (spec == Gles2 <==> name == "gles2")
      && (spec == Webgl <==> name in {"webgl", "webgln"})
      && (spec == Gles3 <==> name == "gles3")
      && (spec == Gles31 <==> name == "gles31")
      && (spec == Gles32 <==> name == "gles32")
      && (spec == Webgl2 <==> name == "webgl2")
      && (spec == Webgl3 <==> name == "webgl3")
  {
  }

  /** The limits as they stand after the spec is read. */
  lemma SpecLimitsValues(spec: Spec, webgln: bool, r: Resources)
    ensures var l := SpecLimits(spec, webgln, r);
      && l.MaxDrawBuffers == (if spec in {Gles3, Gles31, Gles32, Webgl2} then 8 else if RaisesLimits(spec) then 4 else r.MaxDrawBuffers)
      && l.MaxVertexTextureImageUnits == (if RaisesLimits(spec) then 16 else r.MaxVertexTextureImageUnits)
      && l.MaxCombinedTextureImageUnits == (if RaisesLimits(spec) then 32 else r.MaxCombinedTextureImageUnits)
      && l.MaxTextureImageUnits == (if RaisesLimits(spec) then 16 else r.MaxTextureImageUnits)
      && l.FragmentPrecisionHigh == (if webgln then 0 else r.FragmentPrecisionHigh)
      && l.HashFunction == r.HashFunction && l.MaxVertexAttribs == r.MaxVertexAttribs
      && l.OES_EGL_image_external == r.OES_EGL_image_external
  {
  }

  /** Block 6 touches only the three members it copies. */
  lemma ResourceParamsValues(params: Json, r: Resources)
    requires ResourceParams(params, r).Ok?
    ensures var c := ResourceParams(params, r).value;
      && c.MaxDrawBuffers == r.MaxDrawBuffers && c.FragmentPrecisionHigh == r.FragmentPrecisionHigh
      && c.MaxVertexTextureImageUnits == r.MaxVertexTextureImageUnits
      && c.MaxCombinedTextureImageUnits == r.MaxCombinedTextureImageUnits
      && c.MaxTextureImageUnits == r.MaxTextureImageUnits
      && (HasResourceKey(params, "EnableNameHashing") ==>
            c.HashFunction == if Get(Get(params, "resources"), "EnableNameHashing").b then FnvHashFunction else NoHashFunction)
      && (!HasResourceKey(params, "EnableNameHashing") ==> c.HashFunction == r.HashFunction)
      && (HasResourceKey(params, "MaxVertexAttribs") ==>
            c.MaxVertexAttribs == Get(Get(params, "resources"), "MaxVertexAttribs").i)
      && (!HasResourceKey(params, "MaxVertexAttribs") ==> c.MaxVertexAttribs == r.MaxVertexAttribs)
      && (HasResourceKey(params, "OES_EGL_image_external") ==>
            c.OES_EGL_image_external == Get(Get(params, "resources"), "OES_EGL_image_external").i)
      && (!HasResourceKey(params, "OES_EGL_image_external") ==> c.OES_EGL_image_external == r.OES_EGL_image_external)
  {
  }

  /** The final adjustments touch only the draw buffers and the precision. */
  lemma FinalLimitsValues(params: Json, spec: Spec, r: Resources)
    ensures var f := FinalLimits(params, spec, r);
      && f.MaxDrawBuffers == (if RaisesLimits(spec) && !HasResourceKey(params, "MaxDrawBuffers") then 8 else r.MaxDrawBuffers)
      && f.FragmentPrecisionHigh == (if spec == Webgl && IsWebgln(params) then 0
           else if spec == Webgl && !HasResourceKey(params, "FragmentPrecisionHigh") then 1
           else r.FragmentPrecisionHigh)
      && f.MaxVertexTextureImageUnits == r.MaxVertexTextureImageUnits
      && f.MaxCombinedTextureImageUnits == r.MaxCombinedTextureImageUnits
      && f.MaxTextureImageUnits == r.MaxTextureImageUnits
      && f.HashFunction == r.HashFunction && f.MaxVertexAttribs == r.MaxVertexAttribs
      && f.OES_EGL_image_external == r.OES_EGL_image_external
  {
  }

  /** The three stages of the resource record, named. */
  lemma ResourceStages(params: Json, spec: Spec, init: Resources)
    requires ResourcesFor(params, spec, init).Ok?
    ensures var limited := SpecLimits(spec, IsWebgln(params), GenerateResources(init));
      && ResourceParams(params, limited).Ok?
      && ResourcesFor(params, spec, init).value == FinalLimits(params, spec, ResourceParams(params, limited).value)
  {
  }

  /** The draw-buffer limit a request ends with: 1 for GLES 2 and WebGL 1, 8 above, 4 for WebGL 3 when `resources` names MaxDrawBuffers. */
  lemma DrawBuffersProfile(params: Json, spec: Spec, init: Resources)
    requires SpecOf(params) == Ok(spec) && ResourcesFor(params, spec, init).Ok?
    ensures var name := RequestedSpec(params);
      var mdb := ResourcesFor(params, spec, init).value.MaxDrawBuffers;
      && (name in {"gles2", "webgl", "webgln"} ==> mdb == 1)
      && (name in {"gles3", "gles31", "gles32", "webgl2"} ==> mdb == 8)
      && (name == "webgl3" ==> mdb == if HasResourceKey(params, "MaxDrawBuffers") then 4 else 8)
  {
    var limited := SpecLimits(spec, IsWebgln(params), GenerateResources(init));
    ResourceStages(params, spec, init);
    SpecFromRequest(params, spec);
    SpecLimitsValues(spec, IsWebgln(params), GenerateResources(init));
    ResourceParamsValues(params, limited);
    FinalLimitsValues(params, spec, ResourceParams(params, limited).value);
  }

  /** Texture units: the baseline 0/8/8 for GLES 2 and WebGL 1, 16/32/16 for every higher spec. */
  lemma TextureUnitsProfile(params: Json, spec: Spec, init: Resources)
    requires SpecOf(params) == Ok(spec) && ResourcesFor(params, spec, init).Ok?
    ensures var name := RequestedSpec(params);
      var r := ResourcesFor(params, spec, init).value;
      && (name in {"gles2", "webgl", "webgln"} ==>
            r.MaxVertexTextureImageUnits == 0 && r.MaxCombinedTextureImageUnits == 8 && r.MaxTextureImageUnits == 8)
      && (name !in {"gles2", "webgl", "webgln"} ==>
            r.MaxVertexTextureImageUnits == 16 && r.MaxCombinedTextureImageUnits == 32 && r.MaxTextureImageUnits == 16)
  {
    var limited := SpecLimits(spec, IsWebgln(params), GenerateResources(init));
    ResourceStages(params, spec, init);
    SpecFromRequest(params, spec);
    SpecLimitsValues(spec, IsWebgln(params), GenerateResources(init));
    ResourceParamsValues(params, limited);
    FinalLimitsValues(params, spec, ResourceParams(params, limited).value);
  }

  /**
   * FragmentPrecisionHigh: 0 for "webgln"; 1 for "webgl" unless `resources`
   * names the key, in which case (and for every other spec) it keeps the
   * value ANGLE initialised, since the key's value is never read.
   */
  lemma PrecisionProfile(params: Json, spec: Spec, init: Resources)
    requires SpecOf(params) == Ok(spec) && ResourcesFor(params, spec, init).Ok?
    ensures var name := RequestedSpec(params);
      var fph := ResourcesFor(params, spec, init).value.FragmentPrecisionHigh;
      && (name == "webgln" ==> fph == 0)
      && (name == "webgl" ==> fph == if HasResourceKey(params, "FragmentPrecisionHigh") then init.FragmentPrecisionHigh else 1)
      && (name !in {"webgl", "webgln"} ==> fph == init.FragmentPrecisionHigh)
  {
    var limited := SpecLimits(spec, IsWebgln(params), GenerateResources(init));
    ResourceStages(params, spec, init);
    SpecFromRequest(params, spec);
    SpecLimitsValues(spec, IsWebgln(params), GenerateResources(init));
    ResourceParamsValues(params, limited);
    FinalLimitsValues(params, spec, ResourceParams(params, limited).value);
  }

  /** The three copied members: name hashing on or off, MaxVertexAttribs (8 by default) and OES_EGL_image_external (0). */
  lemma CopiedResources(params: Json, spec: Spec, init: Resources)
    requires ResourcesFor(params, spec, init).Ok?
    ensures var r := ResourcesFor(params, spec, init).value;
      && (HasResourceKey(params, "EnableNameHashing") ==>
            r.HashFunction == if Get(Get(params, "resources"), "EnableNameHashing").b then FnvHashFunction else NoHashFunction)
      && (!HasResourceKey(params, "EnableNameHashing") ==> r.HashFunction == init.HashFunction)
      && (HasResourceKey(params, "MaxVertexAttribs") ==>
            r.MaxVertexAttribs == Get(Get(params, "resources"), "MaxVertexAttribs").i)
      && (!HasResourceKey(params, "MaxVertexAttribs") ==> r.MaxVertexAttribs == 8)
      && (HasResourceKey(params, "OES_EGL_image_external") ==>
            r.OES_EGL_image_external == Get(Get(params, "resources"), "OES_EGL_image_external").i)
      && (!HasResourceKey(params, "OES_EGL_image_external") ==> r.OES_EGL_image_external == 0)
  {
    var limited := SpecLimits(spec, IsWebgln(params), GenerateResources(init));
    ResourceStages(params, spec, init);
    SpecLimitsValues(spec, IsWebgln(params), GenerateResources(init));
    ResourceParamsValues(params, limited);
    FinalLimitsValues(params, spec, ResourceParams(params, limited).value);
  }

  /**
   * The `output` grammar: "essl", "spirv", "msl", "glsl" (compatibility
   * profile), "hlsl9", "hlsl11", and "glsl" followed by one of the listed
   * versions; everything else, bare "hlsl" included, is rejected.
   */
  lemma OutputGrammar(s: string)
    ensures ParseOutput(s).Ok? <==>
      || s in {"essl", "spirv", "msl", "glsl", "hlsl9", "hlsl11"}
      || (StartsWith(s, "glsl") && |s| > 4 && ParseInt(s[4..]).Some? && ParseInt(s[4..]).value in GlslVersions)
  {
    if StartsWith(s, "glsl") && |s| > 4 {
      OutputGrammarGlsl(s);
    } else if StartsWith(s, "hlsl") && |s| > 4 {
      OutputGrammarHlsl(s);
    } else {
      OutputGrammarWhole(s);
    }
  }

  /** "glsl" followed by a version: accepted exactly when the version is a listed one. */
  lemma OutputGrammarGlsl(s: string)
    requires StartsWith(s, "glsl") && |s| > 4
    ensures ParseOutput(s).Ok? <==> ParseInt(s[4..]).Some? && ParseInt(s[4..]).value in GlslVersions
    ensures s !in {"essl", "spirv", "msl", "glsl", "hlsl9", "hlsl11"}
  {
    assert s[..4] == "glsl";
    assert s[0] == 'g' && |s| > 4;
    var version := s[4..];
    assert version != [];
    assert ParseOutput(s).Ok? <==> ParseGLSLOutputVersion(version).Some?;
  }

  /** "hlsl" followed by a version: accepted exactly for "9" and "11". */
  lemma OutputGrammarHlsl(s: string)
    requires StartsWith(s, "hlsl") && |s| > 4
    ensures ParseOutput(s).Ok? <==> s in {"hlsl9", "hlsl11"}
    ensures !StartsWith(s, "glsl")
  {
    assert s[..4] == "hlsl" && s == "hlsl" + s[4..];
    assert s[0] == 'h';
    assert ParseOutput(s).Ok? <==> s[4..] in {"9", "11"};
    assert "hlsl" + "9" == "hlsl9" && "hlsl" + "11" == "hlsl11";
    if s == "hlsl9" {
      assert s[4..] == "9";
    } else if s == "hlsl11" {
      assert s[4..] == "11";
    }
  }

  /** A name that is not split into a type and a version is accepted exactly as "essl", "glsl", "spirv" or "msl". */
  lemma OutputGrammarWhole(s: string)
    requires !(StartsWith(s, "glsl") && |s| > 4) && !(StartsWith(s, "hlsl") && |s| > 4)
    ensures ParseOutput(s).Ok? <==> s in {"essl", "glsl", "spirv", "msl"}
    ensures s != "hlsl9" && s != "hlsl11"
  {
    assert "hlsl9"[..4] == "hlsl" && "hlsl11"[..4] == "hlsl";
    if s == "glsl" {
      assert ParseGLSLOutputVersion([]) == Some(GlslCompatibility);
    }
  }

  /** The output each of the six fixed names selects. */
  lemma OutputNames(s: string)
    ensures s == "essl" ==> ParseOutput(s) == Ok(Essl)
    ensures s == "spirv" ==> ParseOutput(s) == Ok(Spirv)
    ensures s == "msl" ==> ParseOutput(s) == Ok(Msl)
    ensures s == "glsl" ==> ParseOutput(s) == Ok(GlslCompatibility)
    ensures s == "hlsl9" ==> ParseOutput(s) == Ok(Hlsl30)
    ensures s == "hlsl11" ==> ParseOutput(s) == Ok(Hlsl41)
  {
    if s == "spirv" {
      assert s[0] == 's';
    } else if s == "hlsl9" {
      assert s[..4] == "hlsl" && s[4..] == "9";
    } else if s == "hlsl11" {
      assert s[..4] == "hlsl" && s[4..] == "11";
    }
  }

  /** "glsl" followed by a listed version written in decimal selects that GLSL version. */
  lemma GlslOutputVersion(v: int)
    requires v in GlslVersions
    ensures ParseOutput("glsl" + ToDecimal(v)) == Ok(Glsl(v))
  {
    var s := "glsl" + ToDecimal(v);
    GlslVersionRoundTrip(v);
    assert s[..4] == "glsl" && s[4..] == ToDecimal(v);
  }

  /**
   * Object code is on by default: without `compile_options` the options are
   * object code and local initialisation only, and a `compile_options` object
   * without `object_code` still asks for object code.
   */
  lemma OptionsDefaults(params: Json)
    requires OptionsWellTyped(params) && OptionsOf(params).Ok?
    ensures var o := OptionsOf(params).value;
      && (!Contains(params, "compile_options") ==> o == CompileOptions(false, true, true, false, false))
      && (Contains(params, "compile_options") && !Contains(Get(params, "compile_options"), "object_code") ==> o.objectCode)
      && (Contains(params, "compile_options") && Contains(Get(params, "compile_options"), "object_code") ==>
            o.objectCode == Get(Get(params, "compile_options"), "object_code").b)
  {
  }

  /** The first check that fails decides the error: a missing source wins over everything else. */
  lemma SourceCheckedFirst(params: Json, init: Resources)
    requires !Contains(params, "shader_code_base64")
    ensures DecodeParams(params, init) == Err(InvalidParams("Missing 'shader_code_base64' parameter."))
  {
  }

  /**
   * A request whose source is accepted fails on the stage before anything
   * else, and an accepted request carries the stage named in `shader_type`
   * and the decoded source, non-empty whenever the encoded text was.
   */
  lemma StageAndSource(params: Json, init: Resources)
    requires Decodable(params)
    ensures SourceOf(params).Ok? && StageOf(params).Err? ==> DecodeParams(params, init) == Err(StageOf(params).error)
    ensures DecodeParams(params, init).Ok? ==>
      var req := DecodeParams(params, init).value;
      && StageName(req.stage) == Get(params, "shader_type").s
      && req.source == Base64.BytesToString(Base64.DecodeSpec(Get(params, "shader_code_base64").s))
      && (Get(params, "shader_code_base64").s != [] ==> req.source != [])
  {
    if DecodeParams(params, init).Ok? {
      DecodedFromPhases(params, init);
    }
  }
}
