/**
 * Value types shared by the client: the message and tool-call records of
 * types.go, the JSON values that travel over the wire, and the errors the
 * client returns to its callers.
 */
module Types {

  datatype Option<+T> = None | Some(value: T)

  /** An IEEE-754 double kept as its bit pattern; the client only copies it. */
  datatype Float64 = Float64(bits: bv64)

  /** The double 1.0. */
  const One: Float64 := Float64(0x3FF0_0000_0000_0000)

  /** The reason a choice finished; any string the server sends is kept. */
  type FinishReason = string

  datatype FunctionCall = FunctionCall(name: string, arguments: string)

  datatype ToolCall = ToolCall(id: string, toolType: string, call: FunctionCall)

  /** One message of a conversation; `toolCalls` is empty when the model requested none. */
  datatype ChatMessage = ChatMessage(role: string, content: string, toolCalls: seq<ToolCall>)

  datatype UsageInfo = UsageInfo(promptTokens: int, totalTokens: int, completionTokens: int)

  /** A decoded JSON value, as the generic decoder produces it. */
  datatype Json =
    | JNull
    | JBool(b: bool)
    | JNumber(n: Float64)
    | JString(s: string)
    | JArray(items: seq<Json>)
    | JObject(fields: map<string, Json>)

  type JsonObject = map<string, Json>

  /** A value placed in a request body before it is serialised. */
  datatype Value =
    | Str(s: string)
    | Int(i: int)
    | Float(f: Float64)
    | Bool(b: bool)
    | Messages(messages: seq<ChatMessage>)
    | Strings(items: seq<string>)

  /** A request body: the loosely typed key/value map the client builds. */
  type RequestData = map<string, Value>

  /** The failures the client reports. */
  datatype Error =
    | ConnectionError(cause: string)          // the transport could not complete an attempt
    | HttpError(status: int, text: string)    // "(HTTP Error %d) %s": a final status of 400 or more
    | ReadError(cause: string)                // reading a buffered response body failed
    | JsonError                               // json.Unmarshal cannot decode a buffered body into a map
    | NilResponse                             // the nil-pointer panic when no attempt was made
    | InvalidResponseType                     // the transport returned the wrong representation
    | MappingError                            // a JSON object does not fit the typed response

  datatype Result<+T> = Ok(value: T) | Err(error: Error)
}
