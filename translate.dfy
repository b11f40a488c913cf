/**
 * The second half of `handle_translate_request`: construct a compiler for the
 * decoded request, compile the source, build the result or the error payload,
 * and destruct the compiler on every path.
 */
module Translate {
  import opened Wrappers
  import opened JsonValues
  import opened Errors
  import opened Text
  import opened ShaderTypes
  import opened Reflection
  import opened Angle
  import opened Request
  import Base64

  type byte = Base64.byte


  /** Byte k (0 = least significant) of a word. */
  function ByteOf(w: Word, k: nat): byte
    requires k < 4
  {
    (w / [1, 0x100, 0x1_0000, 0x100_0000][k]) % 0x100
  }

  /** The bytes of a blob as they lie in memory on a little-endian target. */
  function WordBytes(blob: seq<Word>): (r: seq<byte>)
    ensures |r| == 4 * |blob|
  {
    seq(4 * |blob|, i requires 0 <= i < 4 * |blob| => ByteOf(blob[i / 4], i % 4))
  }

  /**
   * `object_code_base64` as written: `base64_encode(bytes, blob.size())`
   * passes the number of WORDS as the number of bytes, so only the first
   * quarter of the binary is handed to the encoder; "" for an empty blob.
   */
  function SpirvBase64(blob: seq<Word>): string {
    if |blob| > 0 then Base64.EncodeAsWritten(WordBytes(blob)[..|blob|]) else ""
  }

  /** The payload the field is meant to carry: every byte of the binary, RFC 4648 encoded. */
  function IntendedSpirvBase64(blob: seq<Word>): string {
    Base64.Rfc4648Encode(WordBytes(blob))
  }

  /** The result payload of a successful compile. */
  function SuccessPayload(req: TranslateRequest, out: CompileOutcome): Json {
    var m := map["info_log" := JString(out.infoLog)];
    var m := if !req.options.objectCode then m
      else if req.output == Spirv then m["object_code_base64" := JString(SpirvBase64(out.blob))]
      else m["object_code" := JString(out.objectCode)];
    JObject(if req.printActiveVariables then m["active_variables" := ActiveVariablesJson(out.variables)] else m)
  }

  function ConfigOf(req: TranslateRequest): Config {
    Config(req.stage, req.spec, req.output, req.resources)
  }

  /** What the handler returns for an accepted request. */
  function CompilePayload(oracle: Oracle, req: TranslateRequest): Json {
    if !oracle.constructs(ConfigOf(req)) then
      MakeErrorPayload(EFailCompilerCreate, "Failed to construct compiler.", JNull)
    else
      var out := oracle.compile(ConfigOf(req), CStr(req.source), req.options);
      if out.success then SuccessPayload(req, out)
      else MakeErrorPayload(EFailCompile, "Shader compilation failed.", JObject(map["info_log" := JString(out.infoLog)]))
  }

  /** What `handle_translate_request` returns for `params`. */
  function TranslateResponse(oracle: Oracle, params: Json): Json
    requires Decodable(params)
  {
    match DecodeParams(params, oracle.initResources)
    case Err(e) => e
    case Ok(req) => CompilePayload(oracle, req)
  }

  /** The calls of one translation: construct, compile and destruct the same handle. */
  ghost predicate ConstructCompileDestruct(before: seq<Event>, after: seq<Event>) {
    && |after| == |before| + 3 && after[..|before|] == before
    && after[|before|].Constructed?
    && after[|before| + 1] == Compiled(after[|before|].handle)
    && after[|before| + 2] == Destructed(after[|before|].handle)
  }

  lemma ThreeCalls(before: seq<Event>, h: nat)
    ensures ConstructCompileDestruct(before, before + [Constructed(h)] + [Compiled(h)] + [Destructed(h)])
  {
  }

  /**
   * `handle_translate_request`. A rejected request makes no call into ANGLE;
   * an accepted one constructs a compiler, and a constructed compiler is
   * compiled once and destructed once, so no handle outlives the call.
   */
  method HandleTranslateRequest(compilers: Compilers, params: Json) returns (payload: Json)
    requires compilers.Valid() && Decodable(params)
    modifies compilers
    ensures compilers.Valid()
    ensures payload == TranslateResponse(compilers.oracle, params)
    ensures compilers.live == old(compilers.live) && compilers.outcomes == old(compilers.outcomes)
    ensures var decoded := DecodeParams(params, compilers.oracle.initResources);
      && (decoded.Err? ==> compilers.trace == old(compilers.trace))
      && (decoded.Ok? && !compilers.oracle.constructs(ConfigOf(decoded.value)) ==>
            compilers.trace == old(compilers.trace) + [ConstructFailed])
      && (decoded.Ok? && compilers.oracle.constructs(ConfigOf(decoded.value)) ==>
            ConstructCompileDestruct(old(compilers.trace), compilers.trace))
  {
    var decoded := DecodeTranslateParams(params, compilers.oracle.initResources);
    if decoded.Err? {
      return decoded.error;
    }
    payload := CompileRequest(compilers, decoded.value);
  }

  /** "Perform Compilation": construct, compile, read the results, destruct. */
  method CompileRequest(compilers: Compilers, req: TranslateRequest) returns (payload: Json)
    requires compilers.Valid()
    modifies compilers
    ensures compilers.Valid()
    ensures payload == CompilePayload(compilers.oracle, req)
    ensures compilers.live == old(compilers.live) && compilers.outcomes == old(compilers.outcomes)
    ensures !compilers.oracle.constructs(ConfigOf(req)) ==> compilers.trace == old(compilers.trace) + [ConstructFailed]
    ensures compilers.oracle.constructs(ConfigOf(req)) ==> ConstructCompileDestruct(old(compilers.trace), compilers.trace)
  {
    var h := compilers.Construct(Config(req.stage, req.spec, req.output, req.resources));
    if h.None? {
      return MakeErrorPayload(EFailCompilerCreate, "Failed to construct compiler.", JNull);
    }
    var ok := compilers.Compile(h.value, CStr(req.source), req.options);
    assert compilers.outcomes[h.value] == compilers.oracle.compile(ConfigOf(req), CStr(req.source), req.options);
    RemoveAdded(old(compilers.live), h.value, ConfigOf(req));
    RemoveAdded(old(compilers.outcomes), h.value, compilers.outcomes[h.value]);
    ThreeCalls(old(compilers.trace), h.value);
    if ok {
      var result := SuccessResult(compilers, h.value, req);
      compilers.Destruct(h.value);
      payload := JObject(result);
    } else {
      var data := map["info_log" := JString(compilers.InfoLog(h.value))];
      compilers.Destruct(h.value);
      payload := MakeErrorPayload(EFailCompile, "Shader compilation failed.", JObject(data));
    }
  }

  /** The members of the result of a successful compile, read from the handle's getters. */
  method SuccessResult(compilers: Compilers, h: nat, req: TranslateRequest) returns (result: map<string, Json>)
    requires h in compilers.outcomes
    ensures JObject(result) == SuccessPayload(req, compilers.outcomes[h])
  {
    result := map["info_log" := JString(compilers.InfoLog(h))];
    if req.options.objectCode {
      if req.output == Spirv {
        var blob := compilers.ObjectBinaryBlob(h);
        var code := "";
        if |blob| > 0 {
          code := Base64.Base64Encode(WordBytes(blob)[..|blob|]);
        }
        result := result["object_code_base64" := JString(code)];
      } else {
        result := result["object_code" := JString(compilers.ObjectCode(h))];
      }
    }
    if req.printActiveVariables {
      var variables := SerializeActiveVariablesToJson(compilers.ActiveVariablesOf(h));
      result := result["active_variables" := variables];
    }
  }

  // ---------------------------------------------------------------------
  // Properties of the outcome
  // ---------------------------------------------------------------------

  /**
   * The three outcomes of an accepted request: code 3 when no compiler can be
   * constructed, code 2 with the info log as data when compiling fails, and
   * otherwise a result (no "code") carrying the info log.
   */
  lemma CompileOutcomes(oracle: Oracle, req: TranslateRequest)
    ensures var p := CompilePayload(oracle, req);
      var out := oracle.compile(ConfigOf(req), CStr(req.source), req.options);
      && (!oracle.constructs(ConfigOf(req)) ==>
            IsErrorPayload(p) && Get(p, "code") == JInt(EFailCompilerCreate) && !Contains(p, "data"))
      && (oracle.constructs(ConfigOf(req)) && !out.success ==>
            IsErrorPayload(p) && Get(p, "code") == JInt(EFailCompile)
            && Get(p, "data") == JObject(map["info_log" := JString(out.infoLog)]))
      && (oracle.constructs(ConfigOf(req)) && out.success ==>
            p.JObject? && !Contains(p, "code") && Get(p, "info_log") == JString(out.infoLog))
  {
    var out := oracle.compile(ConfigOf(req), CStr(req.source), req.options);
    if oracle.constructs(ConfigOf(req)) && out.success {
      SuccessPayloadKeys(req, out);
    }
  }

  /**
   * The members of a success payload: the info log always; with object code
   * requested, `object_code_base64` for SPIR-V and `object_code` otherwise,
   * never both; `active_variables` exactly when requested.
   */
  lemma SuccessPayloadKeys(req: TranslateRequest, out: CompileOutcome)
    ensures SuccessPayload(req, out).fields.Keys == {"info_log"}
      + (if req.options.objectCode && req.output == Spirv then {"object_code_base64"} else {})
      + (if req.options.objectCode && req.output != Spirv then {"object_code"} else {})
      + (if req.printActiveVariables then {"active_variables"} else {})
    ensures SuccessPayload(req, out).fields["info_log"] == JString(out.infoLog)
  {
  }

  /** The reflection a success payload carries is the serialized reflection of the compile. */
  lemma SuccessReflection(req: TranslateRequest, out: CompileOutcome)
    requires req.printActiveVariables
    ensures SuccessPayload(req, out).fields["active_variables"] == ActiveVariablesJson(out.variables)
  {
  }

  // ---------------------------------------------------------------------
  // The SPIR-V payload
  // ---------------------------------------------------------------------

  /** As written, the SPIR-V payload depends on the number of words alone. */
  lemma SpirvPayloadIgnoresContent(a: seq<Word>, b: seq<Word>)
    requires |a| == |b|
    ensures SpirvBase64(a) == SpirvBase64(b)
  {
    if |a| > 0 {
      Base64.EncodeDependsOnlyOnLength(WordBytes(a)[..|a|], WordBytes(b)[..|b|]);
    }
  }

  /** As written, a non-empty binary gets a payload too short to hold it: it covers |blob| bytes of 4 * |blob|. */
  lemma SpirvPayloadTooShort(blob: seq<Word>)
    requires |blob| > 0
    ensures |SpirvBase64(blob)| == 4 * ((|blob| + 2) / 3)
    ensures |SpirvBase64(blob)| < |IntendedSpirvBase64(blob)|
  {
    Base64.EncodeAsWrittenLength(WordBytes(blob)[..|blob|]);
    Base64.Rfc4648Length(WordBytes(blob));
  }

  /** The intended payload decodes back to every byte of the binary. */
  lemma IntendedSpirvRoundTrip(blob: seq<Word>)
    ensures Base64.DecodeSpec(IntendedSpirvBase64(blob)) == WordBytes(blob)
  {
    Base64.DecodeRfc4648Encode(WordBytes(blob));
  }
}
