/**
 * The return codes of the translator (enum TFailCode) and the error payload
 * that `make_json_error_payload` builds: the "error" member of a JSON-RPC
 * response, not the whole response.
 */
module Errors {
  import opened JsonValues

  const ESuccess: int := 0
  const EFailUsage: int := 1
  const EFailCompile: int := 2
  const EFailCompilerCreate: int := 3
  const EFailJSONRPCParse: int := -32700
  const EFailJSONRPCInvalidRequest: int := -32600
  const EFailJSONRPCMethodNotFound: int := -32601
  const EFailJSONRPCInvalidParams: int := -32602
  const EFailJSONRPCInternalError: int := -32603

  /** An object carrying "code" and "message" (and possibly "data"). */
  predicate IsErrorPayload(j: Json) {
    Contains(j, "code") && Contains(j, "message")
  }

  /** `make_json_error_payload(code, message, data)`: "data" only when data is not null. */
  function MakeErrorPayload(code: int, message: string, data: Json): (r: Json)
    ensures IsErrorPayload(r)
    ensures r.fields["code"] == JInt(code) && r.fields["message"] == JString(message)
    ensures "data" in r.fields <==> data != JNull
    ensures "data" in r.fields ==> r.fields["data"] == data
    ensures r.fields.Keys <= {"code", "message", "data"}
  {
    var payload := map["code" := JInt(code), "message" := JString(message)];
    JObject(if data != JNull then payload["data" := data] else payload)
  }
}
