/**
 * The remote inference endpoint (`bedrock_runtime.invoke_model`), which the model does not
 * implement.  It stands in as an oracle: the answer to the n-th call of the run is an
 * arbitrary function of n, the model id and the request body, so a scripted, flaky or
 * history-dependent endpoint can all be expressed.  The endpoint keeps a log of every call.
 */
module Remote {
  import opened Adapter

  /** What one `invoke_model` call followed by `json.loads(response['body'].read())` yields. */
  datatype InvokeOutcome =
    | Response(body: Json)                       // the call returned and the body decoded
    | ClientError(code: string, message: string) // botocore ClientError: Error.Code / Error.Message
    | OtherError(text: string)                   // any other exception, as `str(e)`

  /** One logged call: the model id and the request body sent. */
  datatype Call = Call(modelId: string, body: RequestBody)

  class Endpoint {
    const respond: (nat, string, RequestBody) -> InvokeOutcome
    var calls: seq<Call>

    constructor (respond: (nat, string, RequestBody) -> InvokeOutcome)
      ensures this.respond == respond && calls == []
    {
      this.respond := respond;
      calls := [];
    }

    method InvokeModel(modelId: string, body: RequestBody) returns (outcome: InvokeOutcome)
      modifies this
      ensures calls == old(calls) + [Call(modelId, body)]
      ensures outcome == respond(|old(calls)|, modelId, body)
    {
      outcome := respond(|calls|, modelId, body);
      calls := calls + [Call(modelId, body)];
    }
  }
}
