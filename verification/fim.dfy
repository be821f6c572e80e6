/**
 * Fill-in-the-middle completion (fim.go): the request body, whose "stop" key
 * is present only when stop sequences were supplied, and the dispatch of the
 * transport's reply onto the typed response.
 */
module Fim {
  import opened Types
  import Client

  /** `stop` is None for a nil slice; Some([]) is a non-nil empty slice. */
  datatype FIMRequestParams = FIMRequestParams(
    model: string, prompt: string, suffix: string, maxTokens: int, temperature: Float64,
    stop: Option<seq<string>>)

  datatype FIMCompletionResponseChoice =
    FIMCompletionResponseChoice(index: int, message: ChatMessage, finishReason: FinishReason)

  datatype FIMCompletionResponse = FIMCompletionResponse(
    id: string, object: string, created: int, model: string,
    choices: seq<FIMCompletionResponseChoice>, usage: UsageInfo)

  const FimPath := "v1/fim/completions"

  const FimKeys: set<string> := {"model", "prompt", "suffix", "max_tokens", "temperature"}

  /** The body of a FIM request: the five fixed keys, then "stop" when a stop list is given. */
  function FimRequestData(params: FIMRequestParams): (d: RequestData)
    ensures FimKeys <= d.Keys && d.Keys <= FimKeys + {"stop"}
    ensures "stop" in d <==> params.stop.Some?
    ensures d["model"] == Str(params.model) && d["prompt"] == Str(params.prompt) && d["suffix"] == Str(params.suffix)
    ensures d["max_tokens"] == Int(params.maxTokens) && d["temperature"] == Float(params.temperature)
    ensures params.stop.Some? ==> d["stop"] == Strings(params.stop.value)
  {
    var d := map["model" := Str(params.model),
                 "prompt" := Str(params.prompt),
                 "suffix" := Str(params.suffix),
                 "max_tokens" := Int(params.maxTokens),
                 "temperature" := Float(params.temperature)];
    if params.stop.Some? then d["stop" := Strings(params.stop.value)] else d
  }

  /**
   * Supplying a stop list, even an empty one, adds exactly the "stop" key to
   * the body sent without one, and changes nothing else.
   */
  lemma StopAddsOneKey(params: FIMRequestParams, stop: seq<string>)
    ensures var without := FimRequestData(params.(stop := None));
            var with := FimRequestData(params.(stop := Some(stop)));
            && without.Keys == FimKeys
            && with == without["stop" := Strings(stop)]
            && with.Keys == without.Keys + {"stop"}
  {
  }

  /** FIM is a buffered POST to v1/fim/completions. */
  function FimCall(params: FIMRequestParams): (call: Client.Call)
    ensures call.verb == "POST" && call.path == FimPath && !call.stream
  {
    Client.Call("POST", FimPath, FimRequestData(params), false)
  }

  /**
   * FIM: a transport error is returned with no response; a parsed object is
   * mapped onto the typed response, and a failed mapping is an error.
   */
  method FIM(c: Client.MistralClient, params: FIMRequestParams,
             server: (Client.HttpRequest, nat) -> Client.Outcome, parse: string -> Option<JsonObject>,
             toStruct: JsonObject -> Option<FIMCompletionResponse>)
    returns (r: Result<FIMCompletionResponse>)
    ensures var reply := Client.Perform(c, FimCall(params), server, parse).reply;
            && (reply.Failed? ==> r == Err(reply.error))
            && (reply.Parsed? && toStruct(reply.obj).Some? ==> r == Ok(toStruct(reply.obj).value))
            && (reply.Parsed? && toStruct(reply.obj).None? ==> r == Err(MappingError))
    ensures r != Err(InvalidResponseType)
  {
    var call := FimCall(params);
    var attempts, waits, reply := Client.Request(c, call, server, parse);
    Client.ReplyMatchesMode(c, call, server, parse);
    match reply {
      case Failed(e) =>
        r := Err(e);
      case StreamBody(_) =>
        r := Err(InvalidResponseType);
      case Parsed(obj) =>
        match toStruct(obj) {
          case None => r := Err(MappingError);
          case Some(v) => r := Ok(v);
        }
    }
  }
}
