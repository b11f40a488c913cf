# stdio shader translator, modelled in Dafny

The stdio shader translator wraps ANGLE's GLSL translator (`sh::*`) in one
executable, `shader_translator`, with three front ends:

- **JSON-RPC mode** (`--json-rpc`). It reads one JSON-RPC 2.0 request per
  line from standard input and writes one response per line. It stops at end
  of input or after answering `shutdown`.
- **WebAssembly entry point** `invoke`. It answers one request per call and
  has no `shutdown` method.
- **Command line**. Flags (`-s=`, `-b=`, `-x=`, `-i`, `-o`, `-u`) set the
  spec, the output back end, the built-in resources and the compile options.
  Every other argument is a shader file. The file is compiled with a compiler
  for its stage, constructed the first time that stage is met and reused
  after that.

The one JSON-RPC method, `translate`, takes a base64 shader source, a stage,
a spec, an output, compile options and resource overrides. It builds a
resource profile, constructs a compiler, compiles, and answers in one of two
ways:

- a result with the info log, the object code (base64 for SPIR-V) and,
  optionally, the reflected active variables serialized to JSON;
- an error payload `{code, message, data?}`.

The project models:

- the request decoder and the resource-profile builder;
- the compile-and-answer step, over ANGLE as an oracle;
- the JSON-RPC envelope and dispatch, shared by the stdin loop and `invoke`;
- the reflection serializer;
- the command-line flag parser and its per-stage compiler cache;
- `FindShaderType`, `ParseGLSLOutputVersion` and `ParseIntValue`;
- the FNV-1a name-hashing callback;
- the header-only base64 codec.

Modules, one per file:

| file | module | models |
|---|---|---|
| wrappers.dfy | Wrappers | Option and Result |
| json.dfy | JsonValues | a JSON value, with a parser as a function parameter |
| errors.dfy | Errors | `TFailCode` and `make_json_error_payload` |
| text.dfy | Text | C strings and `istringstream >> int` on a whole string |
| shader.dfy | ShaderTypes | stages, specs, outputs, compile options, resources, `GenerateResources`, `FindShaderType*`, `ParseGLSLOutputVersion`, `ParseIntValue` |
| fnv.dfy | NameHashing | `FNVHashFunction` |
| base64.dfy | Base64 | `base64.hpp`: `is_base64`, `base64_encode`, `decode`, `base64_decode_to_string` |
| reflection.dfy | Reflection | `SerializeShaderVariable`, `SerializeInterfaceBlock`, `SerializeActiveVariablesToJson` |
| angle.dfy | Angle | ANGLE's compiler API as a `Compilers` object driven by an `Oracle` value |
| request.dfy | Request, RequestProperties | `handle_translate_request` up to compilation, and what it accepts |
| translate.dfy | Translate | construct, compile, answer and destruct in `handle_translate_request` |
| jsonrpc.dfy | JsonRpc | the response envelope, the dispatch, the stdin loop and `invoke` |
| cli.dfy | Cli | the command-line loop as a `CliSession` class mirrored by a `Session` value |
| cli_properties.dfy | CliProperties | properties of the command-line loop |

The parts that change state step by step are imperative Dafny. Each of them
is proved against a function that specifies it:

- the base64 loops over `char_array_3`/`char_array_4`, which are arrays here;
- the `Serialize*` loops;
- the decoder's phases;
- the stdin loop;
- the FNV loop;
- the command-line session.

In the command-line model, the class `Cli.CliSession` holds the `cli_*`
variables and the six compiler slots. Its methods keep it equal to a
`Session` value, which advances one argument at a time through `Cli.Step`.
The lemmas about the loop are stated on that value.

## Model

| member | source | states |
|---|---|---|
| Errors.MakeErrorPayload | stdio_shader_translator/shader_translator.cpp:244-252 | an error payload with the given code and message, a "data" member exactly when data is not null (holding data), and no other member |
| Text.CStr | stdio_shader_translator/shader_translator.cpp:491-492 | the string a `char *` denotes: the longest prefix of s without a NUL, followed in s by a NUL when shorter |
| Text.CharAt | stdio_shader_translator/shader_translator.cpp:664-665 | `arg[i]` on a C string is '\0' exactly at or past the terminator |
| Text.SuffixFrom | stdio_shader_translator/shader_translator.cpp:709 | `&arg[k]` is the C string from position k on, empty past the terminator |
| Text.ParseInt | stdio_shader_translator/shader_translator.cpp:1366-1371 | a read that consumes the whole string succeeds only on an optional sign followed by decimal digits with a value in the 32-bit `int` range; the last character is a digit, so a lone "+" or "-" is rejected (ParseIntLoneSign); ParseIntSignedDigits states the converse and the value read |
| Text.ParseIntToDecimal | stdio_shader_translator/shader_translator.cpp:1366-1373 | every 32-bit int written in decimal is read back as itself |
| Text.ParseIntLoneSign | stdio_shader_translator/shader_translator.cpp:1366-1371 | a lone "+", a lone "-" and the empty string are not read as numbers |
| Text.ParseIntSignedDigits | stdio_shader_translator/shader_translator.cpp:1366-1373 | a sign ("", "+" or "-") followed by at least one digit is accepted exactly when its value fits an `int`, and reads as that signed value |
| Text.ParseIntLeadingZero | stdio_shader_translator/shader_translator.cpp:1366-1373 | a leading zero after the sign does not change what is read |
| Text.ParseIntLeadingZeroExample | stdio_shader_translator/shader_translator.cpp:1366-1373 | "0130" reads as 130 |
| Text.ParseIntPlusExample | stdio_shader_translator/shader_translator.cpp:1366-1373 | "+7" reads as 7 |
| Text.ParseIntMinusZeroExample | stdio_shader_translator/shader_translator.cpp:1366-1373 | "-0" reads as 0 |
| ShaderTypes.GenerateResources | stdio_shader_translator/shader_translator.cpp:543-562 | the nine limits and five extension flags set explicitly (MaxDrawBuffers 1, MaxTextureImageUnits 8, MaxCombinedTextureImageUnits 8, MaxVertexTextureImageUnits 0, EXT_geometry_shader 1, …); every field it does not set (FragmentPrecisionHigh, the hash function and the thirteen other extension flags) keeps the value `sh::InitBuiltInResources` gave |
| ShaderTypes.FindShaderTypeFromJson | stdio_shader_translator/shader_translator.cpp:88-96 | a stage is returned only for that stage's own name; GL_NONE (None) exactly when no stage has that name |
| ShaderTypes.StageNameRoundTrip | stdio_shader_translator/shader_translator.cpp:88-96 | each of "vertex", "fragment", "compute", "geometry", "tess_control", "tess_eval" selects its stage |
| ShaderTypes.LastDot | stdio_shader_translator/shader_translator.cpp:959 | `strrchr(fileName, '.')`: the position of the last '.', None when there is none |
| ShaderTypes.FindShaderType | stdio_shader_translator/shader_translator.cpp:949-977 | a file name without a '.' is a fragment shader; FindShaderTypeByExtension states every other case |
| ShaderTypes.FindShaderTypeByExtension | stdio_shader_translator/shader_translator.cpp:959-976 | from the last '.': ".frag*", ".vert*", ".comp*", ".geom*" match as prefixes; ".tcs" and ".tes" only exactly, because `strncmp` over 5 characters compares the NUL; every other extension (".tcsX", ".txt", ".sl", ".") is a fragment shader |
| ShaderTypes.ParseGLSLOutputVersion | stdio_shader_translator/shader_translator.cpp:1306-1356 | empty text selects the compatibility profile; other text is accepted exactly when it reads as one of the ten listed versions, and then selects that version |
| ShaderTypes.GlslVersionRoundTrip | stdio_shader_translator/shader_translator.cpp:1320-1351 | each listed version written in decimal selects GLSL of that version |
| ShaderTypes.ParseIntValue | stdio_shader_translator/shader_translator.cpp:1358-1374 | empty text gives the default; other text gives what the whole-string integer read gives |
| NameHashing.Widen | stdio_shader_translator/shader_translator.cpp:66 | `static_cast<uint64_t>` of a signed char: bytes below 0x80 are unchanged; from 0x80 up the low byte is kept and every higher bit is set |
| NameHashing.FnvHash | stdio_shader_translator/shader_translator.cpp:63-70 | the loop returns the hash of the first len bytes, starting from the offset basis, with xor and multiplication by the prime modulo 2^64 |
| NameHashing.AsciiIsFnv1a | stdio_shader_translator/shader_translator.cpp:61-70 | on bytes below 0x80 the callback equals standard 64-bit FNV-1a (basis 14695981039346656037, prime 1099511628211) |
| NameHashing.HashOfAppend | stdio_shader_translator/shader_translator.cpp:65-68 | hashing a + b continues from the hash of a |
| NameHashing.HashOf | stdio_shader_translator/shader_translator.cpp:63-70 | the hash the callback computes, byte by byte from the offset basis with each byte widened as a signed char; FnvHash proves the loop computes it and HashOfAppend how it extends |
| NameHashing.Fnv1a | stdio_shader_translator/shader_translator.cpp:61-62 | standard 64-bit FNV-1a with the same basis and prime, the independent reference against which AsciiIsFnv1a compares HashOf |
| Base64.Base64Chars | stdio_shader_translator/base64.hpp:11-14 | the alphabet has 64 characters, entry k being the k-th character of "A-Z a-z 0-9 + /" |
| Base64.IsBase64IsAlphabet | stdio_shader_translator/base64.hpp:16-18 | `is_base64` holds exactly of the characters of `base64_chars` |
| Base64.SextetOf | stdio_shader_translator/base64.hpp:11-14 | an alphabet character's position, below 64, holds that character |
| Base64.Find | stdio_shader_translator/base64.hpp:80 | `find` cast to `unsigned char` is 255 (npos) or a position holding the character |
| Base64.FindIsLinearSearch | stdio_shader_translator/base64.hpp:80 | `find` is the first match of a left-to-right search |
| Base64.FindCode | stdio_shader_translator/base64.hpp:80 | `find` maps each alphabet character to its sextet |
| Base64.FindZero | stdio_shader_translator/base64.hpp:93-97 | the zero byte that pads a partial group is not found: 255 |
| Base64.Filter | stdio_shader_translator/base64.hpp:64-67 | the kept characters (alphabet and '='), no more than the input |
| Base64.UntilPad | stdio_shader_translator/base64.hpp:75 | the prefix before the first '=': it holds no '=' and, when shorter than the input, is followed by '=' |
| Base64.RemoveNonBase64 | stdio_shader_translator/base64.hpp:64-67 | the in-place `erase(remove_if(...))` leaves exactly the filtered string, in order |
| Base64.ZeroFrom | stdio_shader_translator/base64.hpp:93-94 | entries from n on become 0, the others are unchanged |
| Base64.FindEach | stdio_shader_translator/base64.hpp:96-97 | every entry is replaced by `find` of its old value |
| Base64.UnpackInto | stdio_shader_translator/base64.hpp:99-101 | `char_array_3` holds the three bytes packed from the four sextets, modulo 256 |
| Base64.DecodeGroup | stdio_shader_translator/base64.hpp:79-84 | after `find` and unpacking, `char_array_3` holds the bytes of the group of n characters |
| Base64.AppendBytes | stdio_shader_translator/base64.hpp:86-87 | ret grows by the first count entries of `char_array_3` |
| Base64.Decode | stdio_shader_translator/base64.hpp:63-108 | `decode` returns the decoding of the kept characters before the first '=' |
| Base64.DecodeSpec | stdio_shader_translator/base64.hpp:63-108 | what `decode` returns: the groups of the alphabet characters kept before the first '='; Decode proves the method computes it, and DecodeLength, DecodeStopsAtPad, DecodeIgnoresForeign and DecodeRfc4648Encode state its properties |
| Base64.DecodeKept | stdio_shader_translator/base64.hpp:69-105 | over filtered input, the group loop and its tail return the decoding of the characters before the first '=' |
| Base64.PushChar | stdio_shader_translator/base64.hpp:75-89 | one turn of the loop keeps the invariant: ret decodes every whole group read so far, `char_array_4` holds the rest |
| Base64.FlushGroup | stdio_shader_translator/base64.hpp:78-89 | a fourth character appends the three bytes of its group |
| Base64.FlushTail | stdio_shader_translator/base64.hpp:92-105 | a final group of i characters appends its first i - 1 bytes, completing the decoding |
| Base64.DecodeNextGroup | stdio_shader_translator/base64.hpp:78-89 | one more whole group appends exactly its three bytes |
| Base64.DecodeLastGroup | stdio_shader_translator/base64.hpp:92-105 | where the loop stops, the tail bytes complete the decoding |
| Base64.DecodedIsAlphabet | stdio_shader_translator/base64.hpp:75 | only alphabet characters reach the decoder |
| Base64.BytesToString | stdio_shader_translator/base64.hpp:110-113 | one character per byte, with the byte's value |
| Base64.DecodeToString | stdio_shader_translator/base64.hpp:110-113 | `base64_decode_to_string` returns the decoded bytes as characters |
| Base64.DecodeIgnoresForeign | stdio_shader_translator/base64.hpp:64-67 | removing the ignored characters first changes nothing |
| Base64.DecodeSkipsForeignChar | stdio_shader_translator/base64.hpp:64-67 | a character outside the alphabet and '=' can be inserted anywhere without changing the result |
| Base64.DecodeStopsAtPad | stdio_shader_translator/base64.hpp:75 | nothing after the first '=' is decoded |
| Base64.DecodeLength | stdio_shader_translator/base64.hpp:75-105 | with k alphabet characters before the first '=', the output has 3(k div 4) bytes, plus k mod 4 - 1 when k mod 4 > 0 |
| Base64.DecodeEmptyIff | stdio_shader_translator/base64.hpp:92-105 | the output is empty exactly when at most one alphabet character precedes the first '=' |
| Base64.DecodeEmptyExamples | stdio_shader_translator/shader_translator.cpp:279-282 | "====" and "A" decode to nothing, so a request carrying them is rejected as undecodable |
| Base64.Rfc4648Length | stdio_shader_translator/base64.hpp:20-57 | the reference RFC 4648 encoding of n bytes has 4 * ceil(n / 3) characters |
| Base64.Rfc4648Encode | stdio_shader_translator/base64.hpp:20-57 | the encoding `base64_encode` evidently intends (RFC 4648 section 4): Rfc4648Length gives its length and DecodeRfc4648Encode proves `decode` inverts it |
| Base64.GroupRoundTrip | stdio_shader_translator/base64.hpp:82-84 | packing the four sextets of three bytes gives the three bytes back, with arithmetic modulo 256 |
| Base64.DecodeRfc4648Encode | stdio_shader_translator/base64.hpp:80-104 | decoding the correct RFC 4648 encoding of any byte string gives that byte string |
| Base64.Base64Encode | stdio_shader_translator/base64.hpp:20-57 | `base64_encode` as written returns the as-written encoding (full groups emit the first four alphabet characters, a tail of i bytes the first i + 1 and 3 - i '=') |
| Base64.EncodeAsWritten | stdio_shader_translator/base64.hpp:20-57 | what `base64_encode` returns as written: "ABCD" per full group and a tail of alphabet prefix and padding; Base64Encode proves the method computes it, and EncodeAsWrittenLength, EncodeAsWrittenPadding, EncodeDependsOnlyOnLength and EncodeAsWrittenLosesContent state its properties |
| Base64.SplitGroup | stdio_shader_translator/base64.hpp:29-32 | `char_array_4` holds the four sextets of `char_array_3` |
| Base64.AppendAlphabetPrefix | stdio_shader_translator/base64.hpp:34-35 | the loop appends the first n alphabet characters, not the sextets |
| Base64.EncodeTail | stdio_shader_translator/base64.hpp:40-54 | the tail bytes are followed by zeros and split into their sextets, yet a tail of i bytes appends the first i + 1 alphabet characters and 3 - i '=' |
| Base64.EncodeNextGroup | stdio_shader_translator/base64.hpp:26-38 | each full group appends "ABCD" |
| Base64.EncodeLastGroup | stdio_shader_translator/base64.hpp:40-54 | a partial final group appends its prefix and padding |
| Base64.EncodeAsWrittenLength | stdio_shader_translator/base64.hpp:26-54 | the encoding of n bytes has 4 * ceil(n / 3) characters |
| Base64.EncodeAsWrittenPadding | stdio_shader_translator/base64.hpp:52-53 | the text ends in 0, 2 or 1 '=' for n mod 3 = 0, 1, 2, and the character before them is not '=' |
| Base64.EncodeDependsOnlyOnLength | stdio_shader_translator/base64.hpp:34-50 | inputs of equal length encode to the same text |
| Base64.EncodeAsWrittenOneGroup | stdio_shader_translator/base64.hpp:34-35 | every three-byte input encodes as "ABCD" |
| Base64.EncodeAsWrittenLosesContent | stdio_shader_translator/base64.hpp:34-50 | two different inputs of equal length encode alike although their RFC 4648 encodings differ |
| Reflection.HeadMemberKeys | stdio_shader_translator/shader_translator.cpp:99-117 | the six members always set, plus location, binding and offset exactly when not -1 |
| Reflection.MemberKeys | stdio_shader_translator/shader_translator.cpp:98-137 | a serialized variable always has name, mapped_name, type_enum, precision_enum, static_use, active and is_row_major; location, binding, offset when not -1; array_sizes, struct_or_block_name and fields exactly when non-empty |
| Reflection.FieldsPreserved | stdio_shader_translator/shader_translator.cpp:129-135 | `fields` lists the serialized fields, same length and order, recursively |
| Reflection.SerializeShaderVariable | stdio_shader_translator/shader_translator.cpp:98-137 | the object built member by member (fields in a loop) is the variable's JSON form |
| Reflection.VariableJson | stdio_shader_translator/shader_translator.cpp:98-137 | the JSON object of one variable, always an object; MemberKeys gives its keys and FieldsPreserved its nested fields |
| Reflection.VariablesJson | stdio_shader_translator/shader_translator.cpp:191-194 | a list serializes element by element, same length and order |
| Reflection.LayoutNameInjective | stdio_shader_translator/shader_translator.cpp:157-165 | the layout string is one of shared, packed, std140, std430, unknown, and distinct layouts get distinct strings |
| Reflection.BlockMemberKeys | stdio_shader_translator/shader_translator.cpp:141-182 | a serialized block always has name, mapped_name, layout, static_use, active, is_row_major_layout and fields; instance_name when non-empty, array_size when positive, binding when not -1 |
| Reflection.BlockLayoutAndFields | stdio_shader_translator/shader_translator.cpp:157-179 | `layout` names the block's layout and `fields` lists its serialized fields in order |
| Reflection.SerializeInterfaceBlock | stdio_shader_translator/shader_translator.cpp:141-182 | the object built member by member is the block's JSON form |
| Reflection.BlockJson | stdio_shader_translator/shader_translator.cpp:141-182 | the JSON object of one interface block; BlockMemberKeys gives its keys and BlockLayoutAndFields its layout and fields |
| Reflection.SerializeList | stdio_shader_translator/shader_translator.cpp:191-194 | the push_back loop builds the serialized list in order |
| Reflection.BlocksJson | stdio_shader_translator/shader_translator.cpp:204-207 | a block list serializes element by element, same length and order |
| Reflection.ProcessVariableList | stdio_shader_translator/shader_translator.cpp:189-199 | the variable-list lambda gives the serialized list, [] for a null list |
| Reflection.ProcessBlockList | stdio_shader_translator/shader_translator.cpp:202-212 | the block-list lambda gives the serialized list, [] for a null list |
| Reflection.RootKeysPresent | stdio_shader_translator/shader_translator.cpp:214-231 | the root has exactly the eight list keys, each an array |
| Reflection.NullListIsEmpty | stdio_shader_translator/shader_translator.cpp:189-199 | each of the five variable lists (attributes, uniforms, input_varyings, output_varyings, output_variables) is [] when its getter returns null |
| Reflection.NullBlockListIsEmpty | stdio_shader_translator/shader_translator.cpp:202-212 | each of the three block lists (uniform_blocks, shader_storage_buffer_blocks, generic_interface_blocks) is [] when its getter returns null |
| Reflection.ReportedListsInPlace | stdio_shader_translator/shader_translator.cpp:214-231 | each reported list is serialized element by element under its own key |
| Reflection.SerializeActiveVariablesToJson | stdio_shader_translator/shader_translator.cpp:185-240 | the root object built key by key is the reflection's JSON form |
| Reflection.ActiveVariablesJson | stdio_shader_translator/shader_translator.cpp:185-240 | the reflection root; RootKeysPresent gives its eight keys, NullListIsEmpty and NullBlockListIsEmpty its null lists and ReportedListsInPlace its reported ones |
| Angle.Compilers.constructor | stdio_shader_translator/shader_translator.cpp:565 | no compiler is alive and nothing has been called |
| Angle.Compilers.Construct | stdio_shader_translator/shader_translator.cpp:485-489 | a fresh handle, not live before, exactly when the oracle constructs the configuration; the null handle otherwise; nothing else changes |
| Angle.Compilers.Compile | stdio_shader_translator/shader_translator.cpp:491-492 | the handle's outcome becomes the oracle's compile of its configuration, source and options; the live set is unchanged |
| Angle.Compilers.Destruct | stdio_shader_translator/shader_translator.cpp:516-520 | only a live handle is destructed; it leaves the live set, one fewer compiler is alive |
| Request.InvalidParams | stdio_shader_translator/shader_translator.cpp:273 | an error payload with code -32602 and the message |
| Request.SourceOf | stdio_shader_translator/shader_translator.cpp:272-282 | a rejected source (missing, not a string, or non-empty text that decodes to nothing) is a -32602 payload |
| Request.StageOf | stdio_shader_translator/shader_translator.cpp:284-295 | a rejected stage (missing, not a string, or unknown) is a -32602 payload |
| Request.SpecFromName | stdio_shader_translator/shader_translator.cpp:303-315 | accepted exactly for gles2, gles3, gles31, gles32, webgl, webgl2, webgl3 and webgln, which select GLES 2, 3, 3.1, 3.2, WebGL, WebGL 2, WebGL 3 and WebGL respectively |
| Request.SpecOf | stdio_shader_translator/shader_translator.cpp:297-316 | a rejected spec is a -32602 payload |
| Request.ParseOutput | stdio_shader_translator/shader_translator.cpp:335-361 | a rejected output name is a -32602 payload |
| Request.OutputOf | stdio_shader_translator/shader_translator.cpp:330-362 | a rejected output is a -32602 payload |
| Request.OptionsOf | stdio_shader_translator/shader_translator.cpp:364-378 | a rejected compile_options is a -32602 payload |
| Request.OptionsFrom | stdio_shader_translator/shader_translator.cpp:370-377 | the compile options read from a `compile_options` object with their defaults; OptionsDefaults states the defaults |
| Request.ResourceParams | stdio_shader_translator/shader_translator.cpp:380-417 | a rejected resources member is a -32602 payload |
| Request.ResourcesFor | stdio_shader_translator/shader_translator.cpp:318-434 | a rejected resource profile is a -32602 payload |
| Request.SpecLimits | stdio_shader_translator/shader_translator.cpp:318-328 | the limits the spec raises (and the no-highp WebGL variant); SpecLimitsValues states each value |
| Request.FinalLimits | stdio_shader_translator/shader_translator.cpp:418-434 | the final draw-buffer and precision adjustment; FinalLimitsValues states each value |
| Request.PrintActiveOf | stdio_shader_translator/shader_translator.cpp:475-481 | a non-boolean print_active_variables is a -32602 payload |
| Request.DecodeParams | stdio_shader_translator/shader_translator.cpp:258-481 | every rejection of a request is an invalid-params payload |
| Request.DecodeTranslateParams | stdio_shader_translator/shader_translator.cpp:258-481 | the decoder with its early returns gives exactly the phase-by-phase decoding |
| Request.ReadSource | stdio_shader_translator/shader_translator.cpp:272-282 | phase 1 gives the decoded source or its error |
| Request.ReadSpec | stdio_shader_translator/shader_translator.cpp:297-328 | phase 3 gives the spec's error, or the spec with the limits that spec raises |
| Request.ReadOutput | stdio_shader_translator/shader_translator.cpp:330-362 | phase 4 gives the output or its error |
| Request.ReadOptions | stdio_shader_translator/shader_translator.cpp:364-378 | phase 5 gives the compile options or the error |
| Request.ReadResources | stdio_shader_translator/shader_translator.cpp:380-417 | phase 6 gives the copied resource members or the error |
| Request.AdjustLimits | stdio_shader_translator/shader_translator.cpp:418-434 | the final adjustment of draw buffers and precision |
| RequestProperties.DecodedFromPhases | stdio_shader_translator/shader_translator.cpp:258-481 | an accepted request is assembled from what every phase accepted |
| RequestProperties.SourceCheckedFirst | stdio_shader_translator/shader_translator.cpp:272-274 | a request without shader_code_base64 is rejected with "Missing 'shader_code_base64' parameter." whatever else it holds |
| RequestProperties.StageAndSource | stdio_shader_translator/shader_translator.cpp:272-295 | with an accepted source the stage is checked next; an accepted request carries the named stage and the decoded source, non-empty when the encoded text was |
| RequestProperties.SpecFromRequest | stdio_shader_translator/shader_translator.cpp:297-316 | for an accepted spec, each of the seven specs is selected exactly by its own name (WebGL by "webgl" or "webgln"), "gles2" standing for an absent spec, and the no-highp flag is set exactly for "webgln" |
| RequestProperties.SpecLimitsValues | stdio_shader_translator/shader_translator.cpp:318-328 | specs above GLES 2/WebGL 1 set texture units 16/32/16 and draw buffers 4, GLES 3.x and WebGL 2 draw buffers 8; nothing else changes |
| RequestProperties.ResourceParamsValues | stdio_shader_translator/shader_translator.cpp:386-416 | only EnableNameHashing (FNV or none), MaxVertexAttribs and OES_EGL_image_external are copied; the other limits are untouched |
| RequestProperties.FinalLimitsValues | stdio_shader_translator/shader_translator.cpp:418-434 | draw buffers become 8 above GLES 2/WebGL 1 unless resources names MaxDrawBuffers; precision is 0 for webgln and 1 for webgl unless resources names FragmentPrecisionHigh; nothing else changes |
| RequestProperties.ResourceStages | stdio_shader_translator/shader_translator.cpp:318-434 | the profile is the defaults, then the spec's limits, then the copied members, then the final adjustment |
| RequestProperties.DrawBuffersProfile | stdio_shader_translator/shader_translator.cpp:318-434 | final MaxDrawBuffers is 1 for gles2/webgl/webgln, 8 for gles3/gles31/gles32/webgl2, and for webgl3 8, or 4 when resources names MaxDrawBuffers |
| RequestProperties.TextureUnitsProfile | stdio_shader_translator/shader_translator.cpp:318-434 | texture units are 0/8/8 for gles2/webgl/webgln and 16/32/16 for every other spec |
| RequestProperties.PrecisionProfile | stdio_shader_translator/shader_translator.cpp:418-434 | FragmentPrecisionHigh is 0 for webgln, 1 for webgl unless resources names the key, and ANGLE's initial value otherwise |
| RequestProperties.CopiedResources | stdio_shader_translator/shader_translator.cpp:386-416 | name hashing, MaxVertexAttribs and OES_EGL_image_external come from resources when given, else from the defaults (initial hash function, 8, 0) |
| RequestProperties.OutputGrammar | stdio_shader_translator/shader_translator.cpp:330-362 | an output is accepted exactly when it is essl, spirv, msl, glsl, hlsl9, hlsl11, or glsl followed by a listed version; bare hlsl is rejected |
| RequestProperties.OutputGrammarGlsl | stdio_shader_translator/shader_translator.cpp:340-354 | "glsl" followed by more text is accepted exactly when that text reads as a listed version |
| RequestProperties.OutputGrammarHlsl | stdio_shader_translator/shader_translator.cpp:343-359 | "hlsl" followed by more text is accepted exactly as "hlsl9" and "hlsl11" |
| RequestProperties.OutputGrammarWhole | stdio_shader_translator/shader_translator.cpp:335-361 | a name not split into type and version is accepted exactly as "essl", "glsl", "spirv" or "msl" |
| RequestProperties.OutputNames | stdio_shader_translator/shader_translator.cpp:338-360 | the back end each of the six fixed names selects |
| RequestProperties.GlslOutputVersion | stdio_shader_translator/shader_translator.cpp:338-346 | "glsl" followed by a listed version selects that GLSL version |
| RequestProperties.OptionsDefaults | stdio_shader_translator/shader_translator.cpp:364-378 | object code is on by default, both without compile_options and when it lacks object_code |
| Translate.WordBytes | stdio_shader_translator/shader_translator.cpp:503-505 | a SPIR-V binary occupies four bytes per word |
| Translate.HandleTranslateRequest | stdio_shader_translator/shader_translator.cpp:258-525 | the payload for the params; a rejected request calls nothing in ANGLE, a failed construction calls only that, and an accepted one constructs, compiles and destructs the same handle; no compiler outlives the call |
| Translate.TranslateResponse | stdio_shader_translator/shader_translator.cpp:258-525 | the payload for a request: the decoder's error, or the compile payload; HandleTranslateRequest proves the method returns it |
| Translate.CompilePayload | stdio_shader_translator/shader_translator.cpp:485-524 | the payload for an accepted request; CompileOutcomes states its three outcomes and their codes |
| Translate.SuccessPayload | stdio_shader_translator/shader_translator.cpp:494-515 | the result of a successful compile; SuccessPayloadKeys and SuccessReflection state its members |
| Translate.SpirvBase64 | stdio_shader_translator/shader_translator.cpp:503-505 | `object_code_base64` as written; SpirvPayloadIgnoresContent and SpirvPayloadTooShort show what it loses |
| Translate.CompileRequest | stdio_shader_translator/shader_translator.cpp:485-524 | construct, compile, answer, destruct on both paths; the live set is as before |
| Translate.SuccessResult | stdio_shader_translator/shader_translator.cpp:494-515 | the result members read from the getters of a successfully compiled handle |
| Translate.CompileOutcomes | stdio_shader_translator/shader_translator.cpp:485-524 | code 3 without data when no compiler is constructed; code 2 with data.info_log when compiling fails; otherwise a result with info_log and no code |
| Translate.SuccessPayloadKeys | stdio_shader_translator/shader_translator.cpp:494-515 | a result always has info_log; with object code, object_code_base64 for SPIR-V and object_code otherwise, never both; active_variables exactly when requested |
| Translate.SuccessReflection | stdio_shader_translator/shader_translator.cpp:513-515 | active_variables is the serialized reflection of the compile |
| Translate.SpirvPayloadIgnoresContent | stdio_shader_translator/shader_translator.cpp:503-505 | as written, binaries with the same number of words get the same object_code_base64 |
| Translate.SpirvPayloadTooShort | stdio_shader_translator/shader_translator.cpp:503-505 | as written, a non-empty binary gets 4 * ceil(words / 3) characters, fewer than its own encoding needs |
| Translate.IntendedSpirvRoundTrip | stdio_shader_translator/shader_translator.cpp:503-505 | the intended payload, RFC 4648 over every byte, decodes back to the binary |
| JsonRpc.RequestId | stdio_shader_translator/shader_translator.cpp:594-596 | the id is null when the request has none |
| JsonRpc.Route | stdio_shader_translator/shader_translator.cpp:610-614 | the handler's payload becomes the answer unchanged; DispatchOutcomes states when it is an error |
| JsonRpc.Respond | stdio_shader_translator/shader_translator.cpp:584-629 | the response for one parsed line; only a translate call with object params touches the compilers, and none stays alive |
| JsonRpc.Response | stdio_shader_translator/shader_translator.cpp:585-629 | the response to one parsed line; ResponseShape, ParseErrorResponse and IdEchoed state its shape |
| JsonRpc.Dispatch | stdio_shader_translator/shader_translator.cpp:598-622 | the answer chosen by "method"; DispatchOutcomes, UnknownMethod and InvokeHasNoShutdown state each case |
| JsonRpc.Envelope | stdio_shader_translator/shader_translator.cpp:585-628 | the response object; EnvelopeKeys gives its members and ShellIsEnvelope proves the program's shell builds it |
| JsonRpc.TranslateHandler | stdio_shader_translator/shader_translator.cpp:607-614 | the handler `translate` calls: `handle_translate_request`'s payload for params that are rejected before block 5 or carry well-typed options (MissingSourceAnswered) |
| JsonRpc.AnswerRequest | stdio_shader_translator/shader_translator.cpp:598-623 | the dispatch on "method" |
| JsonRpc.AnswerMethod | stdio_shader_translator/shader_translator.cpp:601-622 | the dispatch on a string method |
| JsonRpc.AnswerTranslate | stdio_shader_translator/shader_translator.cpp:603-615 | "translate" without object params is -32602, otherwise the handler's payload |
| JsonRpc.CallHandler | stdio_shader_translator/shader_translator.cpp:607-614 | the handler's payload, routed |
| JsonRpc.ShellIsEnvelope | stdio_shader_translator/shader_translator.cpp:585-628 | filling the shell and erasing "result" gives the three-member envelope, never holding both result and error |
| JsonRpc.Serve | stdio_shader_translator/shader_translator.cpp:583-630 | no more responses than lines; OneResponsePerLine (response i answers line i until a shutdown), NothingAfterShutdown and ShutdownIsLast state its meaning |
| JsonRpc.ServeLines | stdio_shader_translator/shader_translator.cpp:583-632 | the loop answers line by line until end of input or shutdown and exits with 0; the live compilers are as before |
| JsonRpc.ServeLine | stdio_shader_translator/shader_translator.cpp:584-629 | one turn of the loop: the line's response is written, and the loop stops exactly when the line is a shutdown; what remains to be written is Serve of the lines after it |
| JsonRpc.Invoke | stdio_shader_translator/shader_translator.cpp:1414-1471 | `invoke` answers its C string as the loop would, but without the shutdown method |
| JsonRpc.ResponseShape | stdio_shader_translator/shader_translator.cpp:585-629 | every response has jsonrpc "2.0", an id, exactly one of result and error, three members, and an error with code and message |
| JsonRpc.EnvelopeKeys | stdio_shader_translator/shader_translator.cpp:585-628 | the envelope's members are exactly jsonrpc, id and the answer's member |
| JsonRpc.ParseErrorResponse | stdio_shader_translator/shader_translator.cpp:589-592 | unparsable text gives -32700 with a null id |
| JsonRpc.IdEchoed | stdio_shader_translator/shader_translator.cpp:594-596 | the request's id is echoed, null when absent |
| JsonRpc.DispatchOutcomes | stdio_shader_translator/shader_translator.cpp:598-622 | missing or non-string method gives -32600; translate without object params -32602; with them the handler's payload, in error exactly when it is an error payload; shutdown (in the loop) its acknowledgement |
| JsonRpc.MissingSourceAnswered | stdio_shader_translator/shader_translator.cpp:272-274 | a `translate` call whose params lack shader_code_base64 is within the model and answered "Missing 'shader_code_base64' parameter.", whatever its compile_options hold |
| JsonRpc.OtherMethodsWellTyped | stdio_shader_translator/shader_translator.cpp:598-623 | a request for any method other than `translate` is within the model, whatever its params hold |
| JsonRpc.UnknownMethod | stdio_shader_translator/shader_translator.cpp:620-622 | any other method gives -32601 "Method not found: " followed by the name |
| JsonRpc.InvokeHasNoShutdown | stdio_shader_translator/shader_translator.cpp:1438-1461 | shutdown is acknowledged by the loop and is -32601 in `invoke` |
| JsonRpc.OneResponsePerLine | stdio_shader_translator/shader_translator.cpp:583-630 | without shutdown, one response per line, response i answering line i |
| JsonRpc.NothingAfterShutdown | stdio_shader_translator/shader_translator.cpp:616-619 | lines after a shutdown are never read |
| JsonRpc.ShutdownIsLast | stdio_shader_translator/shader_translator.cpp:616-619 | the first shutdown gets the last response, "Shutdown acknowledged." |
| Cli.Steps | stdio_shader_translator/shader_translator.cpp:663 | no argument left, or a failure, ends the loop with the session unchanged |
| Cli.Step | stdio_shader_translator/shader_translator.cpp:664-856 | one argument: a flag through ApplyFlag (usage error code 1 when refused), anything else through FileStep; StepInv proves it keeps the slot invariant and StepKeepsSlots that it never loses a compiler |
| Cli.ApplyFlag | stdio_shader_translator/shader_translator.cpp:664-757 | the settings one option yields, None for a usage error; FlagAcceptance, FlagIdempotent, FlagsOnlySwitchOn and UnknownFlags state its properties |
| Cli.SpecFlag | stdio_shader_translator/shader_translator.cpp:675-701 | `-s=`: the spec and, for WebGL 1, the precision; SpecFlagKeepsOptions and WebglPrecision state its effect |
| Cli.OutputFlag | stdio_shader_translator/shader_translator.cpp:702-722 | `-b=`: the back end, with initializeUninitializedLocals switched on; OutputFlagSwitchesOn states its effect on the options |
| Cli.ExtensionFlag | stdio_shader_translator/shader_translator.cpp:723-756 | `-x=`: one extension switched on; ExtensionFlagSwitchesOn and ExtensionFlagIdempotent state its effect |
| Cli.CountedExtension | stdio_shader_translator/shader_translator.cpp:729-738 | `-x=b` and `-x=w` with a count; DefaultDrawBuffers, DefaultDualSourceBuffers, CountedDrawBuffers, CountedDualSourceBuffers and CountedExtensionText state the count read |
| Cli.FileStep | stdio_shader_translator/shader_translator.cpp:758-856 | a file argument; FileWithoutCompiler, FileWithCompiler, FileKeepsFlags and RaisedLimits state its outcomes |
| Cli.Acquire | stdio_shader_translator/shader_translator.cpp:766-806 | the stage's compiler, reused or constructed; AcquireInv and AcquireKeeps state what it keeps |
| Cli.UseCompiler | stdio_shader_translator/shader_translator.cpp:808-850 | the compile in a filled slot with the settled options; UseCompilerOutcome states its outcome |
| Cli.CompileInSlot | stdio_shader_translator/shader_translator.cpp:821-850 | reading, compiling and reporting one file; CompileInSlotInv and StepNumbered state what it keeps and adds |
| Cli.ReportOf | stdio_shader_translator/shader_translator.cpp:823-846 | what is printed for one compile; StepsNumbered states that reports are numbered by compile |
| Cli.Release | stdio_shader_translator/shader_translator.cpp:873-878 | one slot's compiler destructed; ReleaseInv proves it keeps the slot invariant |
| Cli.JsonRpcMode | stdio_shader_translator/shader_translator.cpp:568-569 | `main` runs the JSON-RPC loop exactly when the first argument is "--json-rpc" |
| Cli.ExitCode | stdio_shader_translator/shader_translator.cpp:859-880 | 0 exactly when something was compiled and nothing failed; a failure's code is returned as is |
| Cli.TeardownIndex | stdio_shader_translator/shader_translator.cpp:873-878 | every stage has a place in the destruct order |
| Cli.CliSession.constructor | stdio_shader_translator/shader_translator.cpp:639-655 | GLES 2, ESSL, the default resources, no options, no compiler, no compile, success |
| Cli.CliSession.AcquireCompiler | stdio_shader_translator/shader_translator.cpp:766-806 | the stage's compiler is reused when its slot holds one, and constructed (with the geometry or tessellation extension set first) otherwise |
| Cli.CliSession.CompileWith | stdio_shader_translator/shader_translator.cpp:821-850 | compile the file when it can be read, add its numbered report, count the compile, and set code 2 when the file cannot be read or does not compile |
| Cli.CliSession.UseCompilerIn | stdio_shader_translator/shader_translator.cpp:808-850 | the HLSL back ends clear selectViewInNvGLSLVertexShader before the compile |
| Cli.CliSession.ReportFor | stdio_shader_translator/shader_translator.cpp:823-846 | the info log always; object code and variables only after a successful compile that asked for them |
| Cli.CliSession.CompileFileArgument | stdio_shader_translator/shader_translator.cpp:758-856 | a file argument: raise the limits, find the stage, acquire its compiler, compile, or fail with code 3 |
| Cli.CliSession.ProcessArgument | stdio_shader_translator/shader_translator.cpp:664-856 | a flag updates the settings or fails with usage; anything else is a file |
| Cli.CliSession.DestructSlot | stdio_shader_translator/shader_translator.cpp:873-878 | the compiler in one slot, if any, is destructed |
| Cli.CliSession.ProcessArguments | stdio_shader_translator/shader_translator.cpp:663-857 | the loop runs the arguments left to right while the fail code is 0, keeping the slot invariant |
| Cli.CliSession.Run | stdio_shader_translator/shader_translator.cpp:663-880 | the exit code and reports of the argument loop, with every compiler destructed |
| Cli.CliSession.Teardown | stdio_shader_translator/shader_translator.cpp:873-878 | the compiler in every slot is destructed; no slot and no live compiler is left, and the reports are kept |
| Cli.RunCommandLine | stdio_shader_translator/shader_translator.cpp:636-880 | command-line mode from the initial session: its exit code and reports, no compiler left alive |
| Cli.InitialInv | stdio_shader_translator/shader_translator.cpp:641-656 | the initial session keeps the slot invariant |
| Cli.AcquireInv | stdio_shader_translator/shader_translator.cpp:766-806 | acquiring a compiler keeps the slot invariant: one distinct live compiler per filled slot |
| Cli.AddSlotInv | stdio_shader_translator/shader_translator.cpp:771-801 | a new compiler in an empty slot keeps the slot invariant |
| Cli.CompileInSlotInv | stdio_shader_translator/shader_translator.cpp:821-850 | a compile keeps the slot invariant |
| Cli.StepInv | stdio_shader_translator/shader_translator.cpp:663-856 | every argument keeps the slot invariant |
| Cli.ReleaseInv | stdio_shader_translator/shader_translator.cpp:873-878 | destructing a slot's compiler keeps the slot invariant |
| CliProperties.StepsAppend | stdio_shader_translator/shader_translator.cpp:663 | running a + b is running a, then b |
| CliProperties.IgnoredAfterFailure | stdio_shader_translator/shader_translator.cpp:663 | arguments after the first failure are not looked at |
| CliProperties.StepsCodes | stdio_shader_translator/shader_translator.cpp:663-856 | the fail code stays one of 0, 1, 2, 3 |
| CliProperties.ExitCodes | stdio_shader_translator/shader_translator.cpp:859-880 | the exit code is 0, 1, 2 or 3, and 0 only after at least one compile and report |
| CliProperties.StepNumbered | stdio_shader_translator/shader_translator.cpp:823-850 | one report per compile, numbered by the compile count |
| CliProperties.StepsNumbered | stdio_shader_translator/shader_translator.cpp:663-857 | report k is compile number k, for the whole run |
| CliProperties.FileWithoutCompiler | stdio_shader_translator/shader_translator.cpp:766-855 | the stage has a compiler after a file exactly when it had one or construction succeeds; without one the code is 3 and nothing is compiled or reported |
| CliProperties.FileWithCompiler | stdio_shader_translator/shader_translator.cpp:808-850 | with a compiler, one compile and one report; the outcome is ANGLE's compile of the file's C string with the settled options; the code stays 0 exactly when the file was read and compiled |
| CliProperties.AcquireKeeps | stdio_shader_translator/shader_translator.cpp:766-806 | acquiring a compiler changes only the resources among the settings, and no count or report |
| CliProperties.UseCompilerOutcome | stdio_shader_translator/shader_translator.cpp:811-850 | compiling in a filled slot keeps the slots and live compilers, adds one compile and one report, and records ANGLE's outcome |
| CliProperties.FileKeepsFlags | stdio_shader_translator/shader_translator.cpp:758-856 | a file keeps the spec, output and print flag; the options at most lose selectViewInNvGLSLVertexShader for HLSL |
| CliProperties.RaisedLimits | stdio_shader_translator/shader_translator.cpp:760-764 | before a file, specs above GLES 2/WebGL 1 get draw buffers 8 and vertex and fragment texture units 16; the combined units never change |
| CliProperties.StepKeepsSlots | stdio_shader_translator/shader_translator.cpp:769-806 | one argument never empties or replaces a slot or a live compiler |
| CliProperties.SlotsPersist | stdio_shader_translator/shader_translator.cpp:663-857 | each stage's compiler is constructed at most once and reused for the rest of the run |
| CliProperties.FlagsOnly | stdio_shader_translator/shader_translator.cpp:664-757 | flags alone construct and compile nothing, and end with 0 or 1 |
| CliProperties.NoFileIsUsage | stdio_shader_translator/shader_translator.cpp:859-864 | a command line without a file exits with usage, having constructed and reported nothing |
| CliProperties.FlagAcceptance | stdio_shader_translator/shader_translator.cpp:664-757 | whether a flag is accepted depends on the flag alone |
| CliProperties.FlagIdempotent | stdio_shader_translator/shader_translator.cpp:664-757 | repeating a flag changes nothing more |
| CliProperties.ExtensionFlagIdempotent | stdio_shader_translator/shader_translator.cpp:723-754 | repeating an extension flag changes nothing more |
| CliProperties.FlagsOnlySwitchOn | stdio_shader_translator/shader_translator.cpp:664-757 | flags only switch compile options and the print flag on |
| CliProperties.SpecFlagKeepsOptions | stdio_shader_translator/shader_translator.cpp:675-701 | `-s=` leaves the options and the print flag alone |
| CliProperties.OutputFlagSwitchesOn | stdio_shader_translator/shader_translator.cpp:702-722 | an accepted `-b=` switches on initializeUninitializedLocals and nothing else among the options |
| CliProperties.ExtensionFlagSwitchesOn | stdio_shader_translator/shader_translator.cpp:723-754 | `-x=` only switches options on (multiview) and leaves the print flag alone |
| CliProperties.WebglPrecision | stdio_shader_translator/shader_translator.cpp:687-696 | `-s=w` selects WebGL 1 with FragmentPrecisionHigh 1, `-s=wn` with 0 |
| CliProperties.DefaultDrawBuffers | stdio_shader_translator/shader_translator.cpp:734-738 | `-x=w` enables EXT_draw_buffers with MaxDrawBuffers 1 |
| CliProperties.DefaultDualSourceBuffers | stdio_shader_translator/shader_translator.cpp:729-733 | `-x=b` enables EXT_blend_func_extended with MaxDualSourceDrawBuffers 1 |
| CliProperties.CountedDrawBuffers | stdio_shader_translator/shader_translator.cpp:734-738 | `-x=w` followed by any 32-bit int n enables EXT_draw_buffers with MaxDrawBuffers n |
| CliProperties.CountedDualSourceBuffers | stdio_shader_translator/shader_translator.cpp:729-733 | `-x=b` followed by any 32-bit int n enables EXT_blend_func_extended with MaxDualSourceDrawBuffers n |
| CliProperties.CountedExtensionText | stdio_shader_translator/shader_translator.cpp:729-738 | `-x=b` or `-x=w` followed by any text without a NUL sets the count `ParseIntValue` reads from it (1 for none), and is a usage error when the text does not read |
| CliProperties.UnknownFlags | stdio_shader_translator/shader_translator.cpp:698-756 | an unknown flag letter, `-s` without '=', and an unknown extension letter are usage errors |

## Left out

- ANGLE itself (`sh::Initialize`, `sh::Finalize`, `sh::InitBuiltInResources`, construction, compilation and the getters) is not part of this model. It is an `Oracle` value. Resource members that `GenerateResources` does not set come from the oracle's initial record and are otherwise unconstrained.
- JSON parsing and `dump()` (nlohmann JSON) are not part of this model. Parsing is a function parameter from text to an optional value, and a response is the value that would be dumped.
- Request.OptionsOf: requires boolean values for the known `compile_options` keys, because `co.value(key, default)` throws on any other type. That point is reached only in block 5, after the source, stage, spec and output were accepted, so Request.DecodeParams, Translate.HandleTranslateRequest and the JSON-RPC methods require it only of such params (`Request.Decodable`). Params rejected earlier, and requests other than a `translate` call with object params, are answered whatever their options hold. JsonRpc.TranslateHandler gives null for params that reach block 5 with ill-typed options, where the program would throw.
- `get<int>()` on an integer out of `int` range, in `resources`, is not modelled: JSON integers are read as they are.
- Text.ParseInt: leading whitespace, which `std::istringstream >> int` skips, is rejected. The integer is read as the whole string: an optional sign, then decimal digits.
- File reading (`ReadShaderSource`, `FreeShaderSource`, the read in `CompileFile`) is a parameter from file name to optional contents. The contents reach ANGLE as a C string, cut at the first NUL.
- All printing is left out: the banner, `usage()`, `LogMsg`, `PrintVariable`, `PrintActiveVariables`, `PrintSpirv` and `PrintSpirvToBuffer`, which need SPIRV-Tools. A command-line compile is recorded as a `Report` holding what is printed between its BEGIN and END lines.
- The WebAssembly shims (`emscripten_notify_memory_growth`, `initialize`, `finalize`) and the lifetime of the `last_result_json` buffer are left out.
- The `finalize_and_exit_success` label and its empty `if` (shader_translator.cpp:883-891) have no effect and are left out. `main`'s choice between the modes is Cli.JsonRpcMode.
- The `.sl` loop in `FindShaderType` (shader_translator.cpp:955-957) is left out. `ext` is recomputed right after it, so the loop has no effect.
- NameHashing.Widen assumes `char` is signed, as on the usual targets. Translate.WordBytes assumes a little-endian target.
- A flag that ends in a usage error leaves the model's settings unchanged. The program may already have changed some of them (`-b=` sets initializeUninitializedLocals before it looks at the back end). The loop stops there and nothing reads the settings afterwards.
- `EFailCompile` is 2 and `EFailCompilerCreate` is 3, as the enum at shader_translator.cpp:32-43 gives them. The Python tests expect -32002 for a failed compile; the model follows the code.
- The second `base64_encode` overload, over a `std::string` (base64.hpp:59-61), is not called by the translator. It is left out.
- Base64.Base64Encode takes `bufLen` to be the length of the buffer. The one call in the translator passes a shorter length (a word count), which Translate models by cutting the buffer first.

## Findings

| source | as written | input that shows it | evidently intended | confidence | as-written member | corrected member |
|---|---|---|---|---|---|---|
| stdio_shader_translator/base64.hpp:35 | `ret += base64_chars[i]` (and `base64_chars[j]` at line 50) appends the loop index's character, not the computed sextet `char_array_4[i]` | bytes [0, 0, 0] and [255, 255, 255] both encode as "ABCD" | RFC 4648 section 4 encoding, `ret += base64_chars[char_array_4[i]]`, which `decode` inverts | not executed | Base64.EncodeAsWrittenLosesContent | Base64.DecodeRfc4648Encode |
| stdio_shader_translator/shader_translator.cpp:505 | `base64_encode(bytes, blob.size())` passes the number of 32-bit words as the number of bytes | a 3-word binary gets 4 characters covering 3 of its 12 bytes | the byte length `blob.size() * sizeof(uint32_t)` | not executed | Translate.SpirvPayloadTooShort | Translate.IntendedSpirvRoundTrip |

Both rows concern the `object_code_base64` member of a SPIR-V result. The
translator's model keeps the program's behaviour: Translate.SuccessResult and
Translate.SuccessPayload use the as-written encoder over the first
`blob.size()` bytes. The corrected payload, Translate.IntendedSpirvBase64, is
RFC 4648 over all `4 * blob.size()` bytes, and Translate.IntendedSpirvRoundTrip
proves it decodes back to the binary.
