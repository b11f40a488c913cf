/**
 * The JSON-RPC 2.0 front end: the response envelope, the dispatch on
 * "method", the stdin loop of `--json-rpc` mode (one request per line, until
 * end of input or "shutdown") and the WebAssembly entry point `invoke` (one
 * request per call, no "shutdown").
 */
module JsonRpc {
  import opened Wrappers
  import opened JsonValues
  import opened Errors
  import opened Text
  import opened Request
  import opened Translate
  import opened Angle

  const ParseErrorMessage := "Parse error: Invalid JSON format."
  const InvalidRequestMessage := "Invalid Request: 'method' is missing or not a string."
  const InvalidParamsMessage := "Invalid Params: 'params' is missing or not an object for 'translate' method."
  const ShutdownMessage := "Shutdown acknowledged."
  const MethodNotFoundPrefix := "Method not found: "

  /** What the dispatch calls for "translate": a function from params to payload. */
  type Handler = Json -> Json

  /**
   * `handle_translate_request` over the ANGLE of `oracle`. Params that are
   * rejected before block 5 get their error payload; params that reach block 5
   * with an ill-typed `compile_options` make the C++ code throw, and the value
   * here is immaterial.
   */
  function TranslateHandler(oracle: Oracle): Handler {
    params => HandleParams(oracle, params)
  }

  /** What TranslateHandler answers for one params value. */
  function HandleParams(oracle: Oracle, params: Json): Json {
    if Decodable(params) then TranslateResponse(oracle, params) else JNull
  }

  /**
   * `co.value` does not throw while answering the request: it is not a
   * "translate" call with object params, or its params are rejected before
   * block 5, or their `compile_options` are well typed.
   */
  predicate ParamsWellTyped(request: Json) {
    CallsHandler(Some(request)) ==> Decodable(Get(request, "params"))
  }

  /** A text whose parse, if any, is a request the handler may be given. */
  predicate ParsesWellTyped(parse: Parser, text: string) {
    parse(text).Some? ==> ParamsWellTyped(parse(text).value)
  }

  /** The "id" of a response: the request's own when it has one, null otherwise. */
  function RequestId(request: Json): (id: Json)
    ensures !Contains(request, "id") ==> id == JNull
  {
    if Contains(request, "id") then Get(request, "id") else JNull
  }

  /** What answers a request: the value of "result" or of "error". */
  datatype Answer = Result(value: Json) | Error(value: Json)

  /** The response member that carries an answer. */
  function Member(answer: Answer): string {
    if answer.Error? then "error" else "result"
  }

  /** A response: "jsonrpc", "id" and the one member that carries the answer. */
  function Envelope(id: Json, answer: Answer): Json {
    JObject(map["jsonrpc" := JString("2.0"), "id" := id, Member(answer) := answer.value])
  }

  /** A parsed request whose "method" is the string `name`. */
  predicate HasMethod(request: Json, name: string) {
    Contains(request, "method") && Get(request, "method") == JString(name)
  }

  /** A request that reaches `handle_translate_request`. */
  predicate CallsHandler(parsed: Option<Json>) {
    parsed.Some? && HasMethod(parsed.value, "translate")
    && Contains(parsed.value, "params") && Get(parsed.value, "params").JObject?
  }

  /** A request the stdin loop answers and then stops reading. */
  predicate Halts(parsed: Option<Json>) {
    parsed.Some? && HasMethod(parsed.value, "shutdown")
  }

  /** Where a handler payload goes: "error" when it has a code and a message, "result" otherwise. */
  function Route(payload: Json): (answer: Answer)
    ensures answer.value == payload
  {
    if IsErrorPayload(payload) then Error(payload) else Result(payload)
  }

  /**
   * The answer to a parsed request. `shutdownKnown` is true in the stdin
   * loop, which recognises "shutdown", and false in `invoke`, which does not.
   */
  function Dispatch(handle: Handler, request: Json, shutdownKnown: bool): Answer {
    if !Contains(request, "method") || !Get(request, "method").JString? then
      Error(MakeErrorPayload(EFailJSONRPCInvalidRequest, InvalidRequestMessage, JNull))
    else
      var name := Get(request, "method").s;
      if name == "translate" then
        if !Contains(request, "params") || !Get(request, "params").JObject? then
          Error(MakeErrorPayload(EFailJSONRPCInvalidParams,
            InvalidParamsMessage, JNull))
        else
          Route(handle(Get(request, "params")))
      else if name == "shutdown" && shutdownKnown then
        Result(JString(ShutdownMessage))
      else
        Error(MakeErrorPayload(EFailJSONRPCMethodNotFound, MethodNotFoundPrefix + name, JNull))
  }

  /** The response to one request text, given what parsing it produced. */
  function Response(handle: Handler, parsed: Option<Json>, shutdownKnown: bool): Json {
    match parsed
    case None => Envelope(JNull, Error(MakeErrorPayload(EFailJSONRPCParse, ParseErrorMessage, JNull)))
    case Some(request) => Envelope(RequestId(request), Dispatch(handle, request, shutdownKnown))
  }

  /**
   * The body of the stdin loop and of `invoke`: build the response shell,
   * fill in "id", then "error" or "result", and drop "result" if "error" is
   * present.
   */
  method Respond(compilers: Compilers, parsed: Option<Json>, shutdownKnown: bool) returns (response: Json)
    requires compilers.Valid() && (parsed.Some? ==> ParamsWellTyped(parsed.value))
    modifies compilers
    ensures compilers.Valid()
    ensures response == Response(TranslateHandler(compilers.oracle), parsed, shutdownKnown)
    ensures compilers.live == old(compilers.live) && compilers.outcomes == old(compilers.outcomes)
    ensures !CallsHandler(parsed) ==> compilers.trace == old(compilers.trace)
  {
    var shell := map["jsonrpc" := JString("2.0"), "id" := JNull];
    if parsed.None? {
      shell := shell["error" := MakeErrorPayload(EFailJSONRPCParse, ParseErrorMessage, JNull)];
    } else {
      var request := parsed.value;
      if Contains(request, "id") {
        shell := shell["id" := Get(request, "id")];
      }
      var answer := AnswerRequest(compilers, request, shutdownKnown);
      shell := shell[Member(answer) := answer.value];
      ShellIsEnvelope(request, answer);
    }
    if "error" in shell && "result" in shell {
      shell := shell - {"result"};
    }
    response := JObject(shell);
  }

  /** The dispatch on "method" and, for "translate", on "params". */
  method AnswerRequest(compilers: Compilers, request: Json, shutdownKnown: bool) returns (answer: Answer)
    requires compilers.Valid() && ParamsWellTyped(request)
    modifies compilers
    ensures compilers.Valid()
    ensures answer == Dispatch(TranslateHandler(compilers.oracle), request, shutdownKnown)
    ensures compilers.live == old(compilers.live) && compilers.outcomes == old(compilers.outcomes)
    ensures !CallsHandler(Some(request)) ==> compilers.trace == old(compilers.trace)
  {
    if !Contains(request, "method") || !Get(request, "method").JString? {
      return Error(MakeErrorPayload(EFailJSONRPCInvalidRequest,
        InvalidRequestMessage, JNull));
    }
    answer := AnswerMethod(compilers, request, Get(request, "method").s, shutdownKnown);
  }

  /** The dispatch on the name of a request's "method". */
  method AnswerMethod(compilers: Compilers, request: Json, name: string, shutdownKnown: bool) returns (answer: Answer)
    requires compilers.Valid() && ParamsWellTyped(request) && HasMethod(request, name)
    modifies compilers
    ensures compilers.Valid()
    ensures answer == Dispatch(TranslateHandler(compilers.oracle), request, shutdownKnown)
    ensures compilers.live == old(compilers.live) && compilers.outcomes == old(compilers.outcomes)
    ensures !CallsHandler(Some(request)) ==> compilers.trace == old(compilers.trace)
  {
    if name == "translate" {
      answer := AnswerTranslate(compilers, request, shutdownKnown);
    } else if name == "shutdown" && shutdownKnown {
      answer := Result(JString(ShutdownMessage));
    } else {
      answer := Error(MakeErrorPayload(EFailJSONRPCMethodNotFound, MethodNotFoundPrefix + name, JNull));
    }
  }

  /** "translate": the params check, then `handle_translate_request` with its payload routed to "error" or "result". */
  method AnswerTranslate(compilers: Compilers, request: Json, shutdownKnown: bool) returns (answer: Answer)
    requires compilers.Valid() && ParamsWellTyped(request) && HasMethod(request, "translate")
    modifies compilers
    ensures compilers.Valid()
    ensures answer == Dispatch(TranslateHandler(compilers.oracle), request, shutdownKnown)
    ensures compilers.live == old(compilers.live) && compilers.outcomes == old(compilers.outcomes)
    ensures !CallsHandler(Some(request)) ==> compilers.trace == old(compilers.trace)
  {
    if !Contains(request, "params") || !Get(request, "params").JObject? {
      return Error(MakeErrorPayload(EFailJSONRPCInvalidParams,
        InvalidParamsMessage, JNull));
    }
    answer := CallHandler(compilers, request, shutdownKnown);
  }

  /** `handle_translate_request` on the params, its payload routed to "error" or "result". */
  method CallHandler(compilers: Compilers, request: Json, shutdownKnown: bool) returns (answer: Answer)
    requires compilers.Valid() && ParamsWellTyped(request) && CallsHandler(Some(request))
    modifies compilers
    ensures compilers.Valid()
    ensures answer == Dispatch(TranslateHandler(compilers.oracle), request, shutdownKnown)
    ensures compilers.live == old(compilers.live) && compilers.outcomes == old(compilers.outcomes)
  {
    var payload := HandleTranslateRequest(compilers, Get(request, "params"));
    if IsErrorPayload(payload) && payload.JObject? {
      answer := Error(payload);
    } else {
      answer := Result(payload);
    }
  }

  /** The shell the loop fills in is the envelope of the request's id and answer, never with both members. */
  lemma ShellIsEnvelope(request: Json, answer: Answer)
    ensures var shell := map["jsonrpc" := JString("2.0"), "id" := JNull];
      var filled := (if Contains(request, "id") then shell["id" := Get(request, "id")] else shell)[Member(answer) := answer.value];
      filled == Envelope(RequestId(request), answer).fields && !("error" in filled && "result" in filled)
  {
  }

  /** The responses the stdin loop writes for `lines`: one per line, the last one for "shutdown". */
  function Serve(handle: Handler, parse: Parser, lines: seq<string>): (responses: seq<Json>)
    ensures |responses| <= |lines|
  {
    if lines == [] then []
    else
      var response := Response(handle, parse(lines[0]), true);
      if Halts(parse(lines[0])) then [response]
      else [response] + Serve(handle, parse, lines[1..])
  }

  /**
   * `--json-rpc` mode: read lines until end of input, answer each, and stop
   * after answering "shutdown". Either way the exit code is ESuccess, and no
   * compiler is left alive.
   */
  method ServeLines(compilers: Compilers, parse: Parser, lines: seq<string>) returns (responses: seq<Json>, exitCode: int)
    requires compilers.Valid()
    requires forall i | 0 <= i < |lines| :: ParsesWellTyped(parse, lines[i])
    modifies compilers
    ensures compilers.Valid()
    ensures responses == Serve(TranslateHandler(compilers.oracle), parse, lines)
    ensures exitCode == ESuccess
    ensures compilers.live == old(compilers.live) && compilers.outcomes == old(compilers.outcomes)
  {
    ghost var handle := TranslateHandler(compilers.oracle);
    responses := [];
    exitCode := ESuccess;
    var i := 0;
    assert lines[0..] == lines;
    while i < |lines|
      invariant 0 <= i <= |lines|
      invariant compilers.Valid() && TranslateHandler(compilers.oracle) == handle
      invariant responses + Serve(handle, parse, lines[i..]) == Serve(handle, parse, lines)
      invariant compilers.live == old(compilers.live) && compilers.outcomes == old(compilers.outcomes)
    {
      var halts;
      responses, halts := ServeLine(compilers, parse, lines, i, responses);
      if halts {
        return;
      }
      i := i + 1;
    }
  }

  /** One turn of the stdin loop: answer line i, and say whether the loop stops there. */
  method ServeLine(compilers: Compilers, parse: Parser, lines: seq<string>, i: nat, responses: seq<Json>)
    returns (responses': seq<Json>, halts: bool)
    requires compilers.Valid() && i < |lines| && ParsesWellTyped(parse, lines[i])
    modifies compilers
    ensures compilers.Valid() && halts == Halts(parse(lines[i]))
    ensures var handle := TranslateHandler(compilers.oracle);
      responses' + (if halts then [] else Serve(handle, parse, lines[i + 1..])) == responses + Serve(handle, parse, lines[i..])
    ensures compilers.live == old(compilers.live) && compilers.outcomes == old(compilers.outcomes)
  {
    var parsed := parse(lines[i]);
    var response := Respond(compilers, parsed, true);
    ServeFrom(TranslateHandler(compilers.oracle), parse, lines, i);
    responses' := responses + [response];
    halts := Halts(parsed);
  }

  /** One turn of the loop: the responses from line i on start with line i's response. */
  lemma ServeFrom(handle: Handler, parse: Parser, lines: seq<string>, i: nat)
    requires i < |lines|
    ensures Serve(handle, parse, lines[i..])
      == [Response(handle, parse(lines[i]), true)]
         + (if Halts(parse(lines[i])) then [] else Serve(handle, parse, lines[i + 1..]))
  {
    assert lines[i..][0] == lines[i] && lines[i..][1..] == lines[i + 1..];
  }

  /** `invoke`: one request as a C string, answered without a "shutdown" branch. */
  method Invoke(compilers: Compilers, parse: Parser, request: string) returns (response: Json)
    requires compilers.Valid() && ParsesWellTyped(parse, CStr(request))
    modifies compilers
    ensures compilers.Valid()
    ensures response == Response(TranslateHandler(compilers.oracle), parse(CStr(request)), false)
    ensures compilers.live == old(compilers.live) && compilers.outcomes == old(compilers.outcomes)
  {
    response := Respond(compilers, parse(CStr(request)), false);
  }

  // ---------------------------------------------------------------------
  // Properties of the responses
  // ---------------------------------------------------------------------

  /**
   * Section 5 of the JSON-RPC 2.0 Specification: a response carries
   * "jsonrpc": "2.0", an "id", and exactly one of "result" and "error", and
   * an "error" is an object with a "code" and a "message" (section 5.1).
   */
  lemma ResponseShape(handle: Handler, parsed: Option<Json>, shutdownKnown: bool)
    ensures var r := Response(handle, parsed, shutdownKnown);
      && r.JObject? && r.fields["jsonrpc"] == JString("2.0") && "id" in r.fields
      && ("result" in r.fields <==> "error" !in r.fields)
      && |r.fields| == 3
      && ("error" in r.fields ==> IsErrorPayload(r.fields["error"]))
  {
    var answer := match parsed
      case None => Error(MakeErrorPayload(EFailJSONRPCParse, ParseErrorMessage, JNull))
      case Some(request) => Dispatch(handle, request, shutdownKnown);
    var id := if parsed.Some? then RequestId(parsed.value) else JNull;
    assert Response(handle, parsed, shutdownKnown) == Envelope(id, answer);
    assert answer.Error? ==> IsErrorPayload(answer.value);
    EnvelopeKeys(id, answer);
  }

  lemma EnvelopeKeys(id: Json, answer: Answer)
    ensures Envelope(id, answer).fields.Keys == {"jsonrpc", "id", Member(answer)}
    ensures |Envelope(id, answer).fields| == 3
  {
    var keys := Envelope(id, answer).fields.Keys;
    assert |{"jsonrpc", "id"}| == 2;
    assert |{"jsonrpc", "id"} + {Member(answer)}| == 3;
    assert keys == {"jsonrpc", "id"} + {Member(answer)};
  }

  /** Unparsable text is answered with -32700 and a null "id". */
  lemma ParseErrorResponse(handle: Handler, shutdownKnown: bool)
    ensures var r := Response(handle, None, shutdownKnown);
      r.fields["id"] == JNull && "error" in r.fields
      && Get(r.fields["error"], "code") == JInt(EFailJSONRPCParse)
  {
  }

  /** A parsed request's "id" is echoed, whatever its type; a request without one gets null. */
  lemma IdEchoed(handle: Handler, request: Json, shutdownKnown: bool)
    ensures var r := Response(handle, Some(request), shutdownKnown);
      r.fields["id"] == (if Contains(request, "id") then Get(request, "id") else JNull)
  {
  }

  /** The error codes of the dispatch, and where the handler's payload goes. */
  lemma DispatchOutcomes(handle: Handler, request: Json, shutdownKnown: bool)
    ensures var a := Dispatch(handle, request, shutdownKnown);
      && (!Contains(request, "method") || !Get(request, "method").JString? ==>
            a.Error? && Get(a.value, "code") == JInt(EFailJSONRPCInvalidRequest))
      && (HasMethod(request, "translate") && !CallsHandler(Some(request)) ==>
            a.Error? && Get(a.value, "code") == JInt(EFailJSONRPCInvalidParams))
      && (CallsHandler(Some(request)) ==>
            a.value == handle(Get(request, "params")) && (a.Error? <==> IsErrorPayload(a.value)))
      && (HasMethod(request, "shutdown") && shutdownKnown ==> a == Result(JString(ShutdownMessage)))
  {
  }

  /** Any other method name is answered with -32601 and names the method. */
  lemma UnknownMethod(handle: Handler, request: Json, name: string, shutdownKnown: bool)
    requires HasMethod(request, name) && name != "translate" && !(name == "shutdown" && shutdownKnown)
    ensures var a := Dispatch(handle, request, shutdownKnown);
      a.Error? && Get(a.value, "code") == JInt(EFailJSONRPCMethodNotFound)
      && Get(a.value, "message") == JString(MethodNotFoundPrefix + name)
  {
  }

  /**
   * Params without a source are answered with the missing-source error
   * whatever their `compile_options` hold: block 1 returns before `co.value`.
   */
  lemma MissingSourceAnswered(oracle: Oracle, params: Json)
    requires !Contains(params, "shader_code_base64")
    ensures ParamsWellTyped(JObject(map["method" := JString("translate"), "params" := params]))
    ensures TranslateHandler(oracle)(params) == InvalidParams("Missing 'shader_code_base64' parameter.")
  {
    assert SourceOf(params).Err?;
  }

  /** Only a "translate" call with object params reaches the handler, so nothing else constrains its params. */
  lemma OtherMethodsWellTyped(request: Json)
    requires !HasMethod(request, "translate")
    ensures ParamsWellTyped(request)
  {
  }

  /** `invoke` has no "shutdown" branch: there, "shutdown" is an unknown method. */
  lemma InvokeHasNoShutdown(handle: Handler, request: Json)
    requires HasMethod(request, "shutdown")
    ensures Dispatch(handle, request, true) == Result(JString(ShutdownMessage))
    ensures Dispatch(handle, request, false).Error?
    ensures Get(Dispatch(handle, request, false).value, "code") == JInt(EFailJSONRPCMethodNotFound)
  {
    UnknownMethod(handle, request, "shutdown", false);
  }

  /** Without a "shutdown" line, the loop writes exactly one response per line, in order. */
  lemma {:induction false} OneResponsePerLine(handle: Handler, parse: Parser, lines: seq<string>)
    requires forall i | 0 <= i < |lines| :: !Halts(parse(lines[i]))
    ensures |Serve(handle, parse, lines)| == |lines|
    ensures forall i | 0 <= i < |lines| :: Serve(handle, parse, lines)[i] == Response(handle, parse(lines[i]), true)
  {
    if lines != [] {
      assert !Halts(parse(lines[0]));
      OneResponsePerLine(handle, parse, lines[1..]);
    }
  }

  /** The loop reads nothing after a "shutdown" line: what follows it has no effect. */
  lemma {:induction false} NothingAfterShutdown(handle: Handler, parse: Parser, lines: seq<string>, rest: seq<string>)
    requires exists k | 0 <= k < |lines| :: Halts(parse(lines[k]))
    ensures Serve(handle, parse, lines + rest) == Serve(handle, parse, lines)
  {
    var k :| 0 <= k < |lines| && Halts(parse(lines[k]));
    assert (lines + rest)[0] == lines[0];
    if !Halts(parse(lines[0])) {
      assert k > 0 && lines[1..][k - 1] == lines[k];
      assert (lines + rest)[1..] == lines[1..] + rest;
      NothingAfterShutdown(handle, parse, lines[1..], rest);
    }
  }

  /** The response to "shutdown" is the last one the loop writes. */
  lemma {:induction false} ShutdownIsLast(handle: Handler, parse: Parser, lines: seq<string>, k: nat)
    requires k < |lines| && Halts(parse(lines[k]))
    requires forall i | 0 <= i < k :: !Halts(parse(lines[i]))
    ensures |Serve(handle, parse, lines)| == k + 1
    ensures Serve(handle, parse, lines)[k] == Response(handle, parse(lines[k]), true)
    ensures Serve(handle, parse, lines)[k].fields["result"] == JString(ShutdownMessage)
  {
    if k > 0 {
      assert !Halts(parse(lines[0]));
      ShutdownIsLast(handle, parse, lines[1..], k - 1);
    }
  }
}
