/**
 * Chat completion (chat.go): the request bodies of the buffered and the
 * streaming call, the defaulting of absent parameters, and the decoder that
 * turns a server-sent-event body into an ordered sequence of increments and
 * errors.  The goroutine and its channel become a method that returns the
 * whole sequence; JSON decoding of one payload is the parameter `decode`.
 */
module Chat {
  import opened Types
  import Client

  datatype ChatRequestParams = ChatRequestParams(temperature: Float64, topP: Float64, randomSeed: int, maxTokens: int)

  const DefaultChatRequestParams := ChatRequestParams(One, One, 42069, 4000)

  datatype ChatCompletionResponseChoice =
    ChatCompletionResponseChoice(index: int, message: ChatMessage, finishReason: FinishReason)

  datatype ChatCompletionResponseChoiceStream =
    ChatCompletionResponseChoiceStream(index: int, delta: ChatMessage, finishReason: FinishReason)

  datatype ChatCompletionResponse = ChatCompletionResponse(
    id: string, object: string, created: int, model: string,
    choices: seq<ChatCompletionResponseChoice>, usage: UsageInfo)

  datatype ChatCompletionStreamResponse = ChatCompletionStreamResponse(
    id: string, model: string, choices: seq<ChatCompletionResponseChoiceStream>,
    created: int, object: string, usage: UsageInfo)

  /** Why a stream element is an error instead of an increment. */
  datatype StreamError = ReadFailed(cause: string) | DecodeFailed(payload: string)

  /** One element of the output sequence: a decoded increment or an error. */
  datatype Element = Increment(response: ChatCompletionStreamResponse) | Failure(error: StreamError)

  const ChatPath := "v1/chat/completions"

  // ---------------------------------------------------------------------------
  // Request bodies

  /** A nil parameter pointer stands for the default parameters. */
  function EffectiveParams(params: Option<ChatRequestParams>): (p: ChatRequestParams)
    ensures params.Some? ==> p == params.value
    ensures params.None? ==> p.randomSeed == 42069 && p.maxTokens == 4000 && p.temperature == One && p.topP == One
  {
    match params
    case None => DefaultChatRequestParams
    case Some(p) => p
  }

  /** The body of a buffered chat request. */
  function ChatRequestData(model: string, messages: seq<ChatMessage>, params: Option<ChatRequestParams>): (d: RequestData)
    ensures d.Keys == {"model", "messages", "temperature", "max_tokens", "top_p", "random_seed"}
    ensures d["model"] == Str(model) && d["messages"] == Messages(messages)
    ensures var p := EffectiveParams(params);
            && d["temperature"] == Float(p.temperature) && d["top_p"] == Float(p.topP)
            && d["max_tokens"] == Int(p.maxTokens) && d["random_seed"] == Int(p.randomSeed)
  {
    var p := EffectiveParams(params);
    map["model" := Str(model),
        "messages" := Messages(messages),
        "temperature" := Float(p.temperature),
        "max_tokens" := Int(p.maxTokens),
        "top_p" := Float(p.topP),
        "random_seed" := Int(p.randomSeed)]
  }

  /** The body of a streaming chat request, written out as its own literal. */
  function ChatStreamRequestData(model: string, messages: seq<ChatMessage>, params: Option<ChatRequestParams>): RequestData
  {
    var p := EffectiveParams(params);
    map["model" := Str(model),
        "messages" := Messages(messages),
        "temperature" := Float(p.temperature),
        "max_tokens" := Int(p.maxTokens),
        "top_p" := Float(p.topP),
        "random_seed" := Int(p.randomSeed),
        "stream" := Bool(true)]
  }

  /** The streaming body is the buffered body plus exactly one key, "stream": true. */
  lemma StreamRequestExtendsChat(model: string, messages: seq<ChatMessage>, params: Option<ChatRequestParams>)
    ensures "stream" !in ChatRequestData(model, messages, params)
    ensures ChatStreamRequestData(model, messages, params) == ChatRequestData(model, messages, params)["stream" := Bool(true)]
    ensures ChatStreamRequestData(model, messages, params).Keys == ChatRequestData(model, messages, params).Keys + {"stream"}
  {
  }

  /** Without parameters both calls send random seed 42069 and at most 4000 tokens. */
  lemma NilParamsUseDefaults(model: string, messages: seq<ChatMessage>)
    ensures ChatRequestData(model, messages, None) == ChatRequestData(model, messages, Some(DefaultChatRequestParams))
    ensures ChatRequestData(model, messages, None)["random_seed"] == Int(42069)
    ensures ChatRequestData(model, messages, None)["max_tokens"] == Int(4000)
    ensures ChatStreamRequestData(model, messages, None)["random_seed"] == Int(42069)
    ensures ChatStreamRequestData(model, messages, None)["max_tokens"] == Int(4000)
  {
  }

  function ChatCall(model: string, messages: seq<ChatMessage>, params: Option<ChatRequestParams>): Client.Call
  {
    Client.Call("POST", ChatPath, ChatRequestData(model, messages, params), false)
  }

  function ChatStreamCall(model: string, messages: seq<ChatMessage>, params: Option<ChatRequestParams>): Client.Call
  {
    Client.Call("POST", ChatPath, ChatStreamRequestData(model, messages, params), true)
  }

  // ---------------------------------------------------------------------------
  // Line classification

  const DataPrefix := "data: "
  const DoneSentinel := "[DONE]"

  /** Go's unicode.IsSpace. */
  predicate IsSpace(c: char)
  {
    c == '\t' || c == '\n' || c == '\U{0B}' || c == '\U{0C}' || c == '\r' || c == ' '
    || c == '\U{85}' || c == '\U{A0}' || c == '\U{1680}' || ('\U{2000}' <= c <= '\U{200A}')
    || c == '\U{2028}' || c == '\U{2029}' || c == '\U{202F}' || c == '\U{205F}' || c == '\U{3000}'
  }

  function TrimLeft(s: string): string
  {
    if s != [] && IsSpace(s[0]) then TrimLeft(s[1..]) else s
  }

  function TrimRight(s: string): string
  {
    if s != [] && IsSpace(s[|s| - 1]) then TrimRight(s[..|s| - 1]) else s
  }

  /** bytes.TrimSpace: drop leading and trailing white space. */
  function TrimSpace(s: string): string
  {
    TrimRight(TrimLeft(s))
  }

  /** TrimLeft removes exactly the leading white space. */
  lemma {:induction false} TrimLeftSpec(s: string)
    ensures var r := TrimLeft(s);
            && |r| <= |s| && r == s[|s| - |r|..]
            && (forall k | 0 <= k < |s| - |r| :: IsSpace(s[k]))
            && (r == [] || !IsSpace(r[0]))
  {
    if s != [] && IsSpace(s[0]) {
      var t := s[1..];
      TrimLeftSpec(t);
      var r := TrimLeft(t);
      assert TrimLeft(s) == r;
      assert r == t[|t| - |r|..] == s[|s| - |r|..];
      forall k | 0 <= k < |s| - |r|
        ensures IsSpace(s[k])
      {
        if k > 0 {
          assert s[k] == t[k - 1];
        }
      }
    }
  }

  /** TrimRight removes exactly the trailing white space. */
  lemma {:induction false} TrimRightSpec(s: string)
    ensures var r := TrimRight(s);
            && |r| <= |s| && r == s[..|r|]
            && (forall k | |r| <= k < |s| :: IsSpace(s[k]))
            && (r == [] || !IsSpace(r[|r| - 1]))
  {
    if s != [] && IsSpace(s[|s| - 1]) {
      var t := s[..|s| - 1];
      TrimRightSpec(t);
      var r := TrimRight(t);
      assert TrimRight(s) == r;
      assert r == t[..|r|] == s[..|r|];
      forall k | |r| <= k < |s|
        ensures IsSpace(s[k])
      {
        if k < |s| - 1 {
          assert s[k] == t[k];
        }
      }
    }
  }

  /**
   * TrimSpace keeps the slice s[a..a+|r|] and removes only white space around
   * it; what is kept neither starts nor ends with white space.
   */
  lemma TrimSpaceSpec(s: string)
    ensures var r := TrimSpace(s);
            && (r == [] || (!IsSpace(r[0]) && !IsSpace(r[|r| - 1])))
            && var a := |s| - |TrimLeft(s)|;
               && 0 <= a && a + |r| <= |s| && r == s[a..a + |r|]
               && (forall k | 0 <= k < a :: IsSpace(s[k]))
               && (forall k | a + |r| <= k < |s| :: IsSpace(s[k]))
  {
    TrimLeftSpec(s);
    TrimRightSpec(TrimLeft(s));
  }

  predicate HasPrefix(s: string, prefix: string)
  {
    |prefix| <= |s| && s[..|prefix|] == prefix
  }

  /** What one line means to the decoder. */
  datatype LineKind = Blank | Ignored | Done | Payload(json: string)

  function Classify(line: string): LineKind
  {
    if line == "\n" then Blank
    else if !HasPrefix(line, DataPrefix) then Ignored
    else
      var json := TrimSpace(line[|DataPrefix|..]);
      if json == DoneSentinel then Done else Payload(json)
  }

  predicate AllSpace(s: string)
  {
    forall k | 0 <= k < |s| :: IsSpace(s[k])
  }

  /** Leading white space before text that does not start with white space is all TrimLeft removes. */
  lemma {:induction false} TrimLeftPadded(ws: string, t: string)
    requires AllSpace(ws) && (t == [] || !IsSpace(t[0]))
    ensures TrimLeft(ws + t) == t
  {
    if ws == [] {
      assert ws + t == t;
    } else {
      assert (ws + t)[0] == ws[0];
      assert (ws + t)[1..] == ws[1..] + t;
      TrimLeftPadded(ws[1..], t);
    }
  }

  /** Trailing white space after text that does not end with white space is all TrimRight removes. */
  lemma {:induction false} TrimRightPadded(t: string, ws: string)
    requires AllSpace(ws) && (t == [] || !IsSpace(t[|t| - 1]))
    ensures TrimRight(t + ws) == t
  {
    if ws == [] {
      assert t + ws == t;
    } else {
      var s := t + ws;
      assert s[|s| - 1] == ws[|ws| - 1];
      assert s[..|s| - 1] == t + ws[..|ws| - 1];
      TrimRightPadded(t, ws[..|ws| - 1]);
    }
  }

  /** TrimSpace recovers any text that neither starts nor ends with white space from its padding. */
  lemma TrimSpacePadded(ws1: string, core: string, ws2: string)
    requires AllSpace(ws1) && AllSpace(ws2)
    requires core == [] || (!IsSpace(core[0]) && !IsSpace(core[|core| - 1]))
    ensures TrimSpace(ws1 + core + ws2) == core
  {
    if core == [] {
      var ws := ws1 + ws2;
      assert ws1 + core + ws2 == ws + [];
      assert forall k | 0 <= k < |ws| :: ws[k] == if k < |ws1| then ws1[k] else ws2[k - |ws1|];
      TrimLeftPadded(ws, []);
    } else {
      assert ws1 + core + ws2 == ws1 + (core + ws2);
      assert (core + ws2)[0] == core[0];
      TrimLeftPadded(ws1, core + ws2);
      TrimRightPadded(core, ws2);
    }
  }

  /**
   * A "data: " line whose rest is white space, a core that neither starts
   * nor ends with white space, and white space is the sentinel when the core
   * is [DONE] and otherwise the payload `core` itself. A data line holding
   * only white space is the empty payload, so it reaches the JSON decoder.
   */
  lemma PaddedDataLine(ws1: string, core: string, ws2: string)
    requires AllSpace(ws1) && AllSpace(ws2)
    requires core == [] || (!IsSpace(core[0]) && !IsSpace(core[|core| - 1]))
    ensures core == DoneSentinel ==> Classify(DataPrefix + ws1 + core + ws2) == Done
    ensures core != DoneSentinel ==> Classify(DataPrefix + ws1 + core + ws2) == Payload(core)
  {
    var line := DataPrefix + ws1 + core + ws2;
    assert line[..|DataPrefix|] == DataPrefix;
    assert line[|DataPrefix|..] == ws1 + core + ws2;
    assert line != "\n" by { assert |line| >= |DataPrefix|; }
    TrimSpacePadded(ws1, core, ws2);
  }

  function DecodeOne(payload: string, decode: string -> Option<ChatCompletionStreamResponse>): Element
  {
    match decode(payload)
    case None => Failure(DecodeFailed(payload))
    case Some(v) => Increment(v)
  }

  // ---------------------------------------------------------------------------
  // The decoder, as a specification and as a loop

  /** The sequence the decoder sends for the body `lines` read up to `end`. */
  function Decoded(lines: seq<string>, end: Client.StreamEnd,
                   decode: string -> Option<ChatCompletionStreamResponse>): seq<Element>
  {
    if lines == [] then
      match end
      case Eof(_) => []
      case ReadFailure(_, cause) => [Failure(ReadFailed(cause))]
    else
      match Classify(lines[0])
      case Done => []
      case Payload(json) => [DecodeOne(json, decode)] + Decoded(lines[1..], end, decode)
      case _ => Decoded(lines[1..], end, decode)
  }

  /** Decoding from line i on, one line unfolded. */
  lemma DecodedAt(lines: seq<string>, i: nat, end: Client.StreamEnd,
                  decode: string -> Option<ChatCompletionStreamResponse>)
    requires i < |lines|
    ensures Decoded(lines[i..], end, decode) ==
            match Classify(lines[i])
            case Done => []
            case Payload(json) => [DecodeOne(json, decode)] + Decoded(lines[i + 1..], end, decode)
            case _ => Decoded(lines[i + 1..], end, decode)
  {
    assert lines[i..][0] == lines[i] && lines[i..][1..] == lines[i + 1..];
  }

  /**
   * The decode loop of ChatStream: reads line after line, skips blank and
   * non-data lines, stops at the sentinel or at end of input, and reports a
   * read error as a final error element.
   */
  method DecodeStream(body: Client.ResponseBody, decode: string -> Option<ChatCompletionStreamResponse>)
    returns (out: seq<Element>)
    ensures out == Decoded(body.lines, body.end, decode)
  {
    var lines := body.lines;
    out := [];
    var i := 0;
    while true
      invariant 0 <= i <= |lines|
      invariant Decoded(lines, body.end, decode) == out + Decoded(lines[i..], body.end, decode)
      decreases |lines| - i
    {
      if i == |lines| {
        match body.end {
          case Eof(_) =>
            break;
          case ReadFailure(_, cause) =>
            out := out + [Failure(ReadFailed(cause))];
            return;
        }
      }
      var line := lines[i];
      DecodedAt(lines, i, body.end, decode);
      i := i + 1;
      if line == "\n" {
        assert Classify(line) == Blank;
        continue;
      }
      if HasPrefix(line, DataPrefix) {
        var json := TrimSpace(line[|DataPrefix|..]);
        if json == DoneSentinel {
          assert Classify(line) == Done;
          break;
        }
        assert Classify(line) == Payload(json);
        var element;
        match decode(json) {
          case None =>
            element := Failure(DecodeFailed(json));
          case Some(v) =>
            element := Increment(v);
        }
        assert element == DecodeOne(json, decode);
        out := out + [element];
      } else {
        assert Classify(line) == Ignored;
      }
    }
  }

  // ---------------------------------------------------------------------------
  // Properties of the decoder

  /** The position of the first sentinel line, or |lines| when there is none. */
  function DoneIndex(lines: seq<string>): (d: nat)
    ensures d <= |lines|
    ensures forall k | 0 <= k < d :: Classify(lines[k]) != Done
    ensures d < |lines| ==> Classify(lines[d]) == Done
  {
    if lines == [] then 0
    else if Classify(lines[0]) == Done then 0
    else 1 + DoneIndex(lines[1..])
  }

  /** The payload a line carries: one for a data line, none otherwise. */
  function PayloadOf(line: string): seq<string>
  {
    match Classify(line)
    case Payload(json) => [json]
    case _ => []
  }

  /** The payloads of the data lines, in order, sentinel lines aside. */
  function Payloads(lines: seq<string>): seq<string>
  {
    if lines == [] then [] else PayloadOf(lines[0]) + Payloads(lines[1..])
  }

  function DecodeAll(payloads: seq<string>, decode: string -> Option<ChatCompletionStreamResponse>): seq<Element>
  {
    seq(|payloads|, k requires 0 <= k < |payloads| => DecodeOne(payloads[k], decode))
  }

  predicate NoDone(lines: seq<string>)
  {
    forall k | 0 <= k < |lines| :: Classify(lines[k]) != Done
  }

  /** One line that is not the sentinel contributes the decoding of its payload, if any. */
  lemma DecodedCons(line: string, rest: seq<string>, end: Client.StreamEnd,
                    decode: string -> Option<ChatCompletionStreamResponse>)
    requires Classify(line) != Done
    ensures Decoded([line] + rest, end, decode) == DecodeAll(PayloadOf(line), decode) + Decoded(rest, end, decode)
  {
    assert ([line] + rest)[0] == line && ([line] + rest)[1..] == rest;
    if Classify(line).Payload? {
      assert DecodeAll([Classify(line).json], decode) == [DecodeOne(Classify(line).json, decode)];
    }
  }

  /**
   * The decoder's output, stated without the loop: one element per data line
   * before the first sentinel, in the order read, each the decoded increment
   * or a decode error; then, only when no sentinel was seen and reading ended
   * on an error, one read error.
   */
  lemma {:induction false} DecodedMatchesPayloads(lines: seq<string>, end: Client.StreamEnd,
                                                  decode: string -> Option<ChatCompletionStreamResponse>)
    ensures Decoded(lines, end, decode) ==
            DecodeAll(Payloads(lines[..DoneIndex(lines)]), decode)
            + (if DoneIndex(lines) == |lines| && end.ReadFailure? then [Failure(ReadFailed(end.cause))] else [])
  {
    if lines == [] {
      assert lines[..0] == [];
    } else if Classify(lines[0]) == Done {
      assert lines[..0] == [];
    } else {
      var rest := lines[1..];
      var d := DoneIndex(lines);
      assert d == 1 + DoneIndex(rest);
      assert d == |lines| <==> DoneIndex(rest) == |rest|;
      DecodedMatchesPayloads(rest, end, decode);
      assert [lines[0]] + rest == lines;
      DecodedCons(lines[0], rest, end, decode);
      var taken := lines[..d];
      assert taken[0] == lines[0] && taken[1..] == rest[..d - 1];
      assert Payloads(taken) == PayloadOf(lines[0]) + Payloads(rest[..d - 1]);
      DecodeAllAppend(PayloadOf(lines[0]), Payloads(rest[..d - 1]), decode);
    }
  }

  lemma DecodeAllAppend(a: seq<string>, b: seq<string>, decode: string -> Option<ChatCompletionStreamResponse>)
    ensures DecodeAll(a + b, decode) == DecodeAll(a, decode) + DecodeAll(b, decode)
  {
    assert |DecodeAll(a + b, decode)| == |DecodeAll(a, decode) + DecodeAll(b, decode)|;
    forall k | 0 <= k < |a + b|
      ensures DecodeAll(a + b, decode)[k] == (DecodeAll(a, decode) + DecodeAll(b, decode))[k]
    {
      if k >= |a| {
        assert (a + b)[k] == b[k - |a|];
      }
    }
  }

  /**
   * Lines before any sentinel are decoded independently of what follows: a
   * decode error does not stop the stream.
   */
  lemma {:induction false} DecodedAppend(a: seq<string>, b: seq<string>, end: Client.StreamEnd,
                                         decode: string -> Option<ChatCompletionStreamResponse>)
    requires NoDone(a)
    ensures Decoded(a + b, end, decode) == Decoded(a, Client.Eof(""), decode) + Decoded(b, end, decode)
  {
    if a != [] {
      assert a + b == [a[0]] + (a[1..] + b);
      assert a == [a[0]] + a[1..];
      DecodedAppend(a[1..], b, end, decode);
      DecodedCons(a[0], a[1..] + b, end, decode);
      DecodedCons(a[0], a[1..], Client.Eof(""), decode);
    } else {
      assert a + b == b;
    }
  }

  /** The sentinel ends the sequence: nothing after it, nor how the body ends, contributes. */
  lemma DoneStopsStream(before: seq<string>, line: string, after: seq<string>, end: Client.StreamEnd,
                        decode: string -> Option<ChatCompletionStreamResponse>)
    requires NoDone(before) && Classify(line) == Done
    ensures Decoded(before + [line] + after, end, decode) == Decoded(before, Client.Eof(""), decode)
  {
    assert before + [line] + after == before + ([line] + after);
    DecodedAppend(before, [line] + after, end, decode);
  }

  /** A payload that fails to decode yields one error element, and decoding goes on. */
  lemma DecodeFailureContinues(before: seq<string>, line: string, after: seq<string>, end: Client.StreamEnd,
                               decode: string -> Option<ChatCompletionStreamResponse>)
    requires NoDone(before) && Classify(line).Payload? && decode(Classify(line).json).None?
    ensures Decoded(before + [line] + after, end, decode)
            == Decoded(before, Client.Eof(""), decode) + [Failure(DecodeFailed(Classify(line).json))] + Decoded(after, end, decode)
  {
    assert before + [line] + after == before + ([line] + after);
    DecodedAppend(before, [line] + after, end, decode);
    DecodedCons(line, after, end, decode);
    assert DecodeAll(PayloadOf(line), decode) == [Failure(DecodeFailed(Classify(line).json))];
  }

  /** A blank line, or one that does not start with "data: ", yields nothing. */
  lemma SkippedLineYieldsNothing(before: seq<string>, line: string, after: seq<string>, end: Client.StreamEnd,
                                 decode: string -> Option<ChatCompletionStreamResponse>)
    requires NoDone(before) && (line == "\n" || !HasPrefix(line, DataPrefix))
    ensures Decoded(before + [line] + after, end, decode) == Decoded(before + after, end, decode)
  {
    assert before + [line] + after == before + ([line] + after);
    DecodedAppend(before, [line] + after, end, decode);
    DecodedAppend(before, after, end, decode);
    DecodedCons(line, after, end, decode);
    assert DecodeAll(PayloadOf(line), decode) == [];
  }

  /** At end of input no error is reported, and a final fragment without a line break is dropped. */
  lemma {:induction false} EofDropsFragment(lines: seq<string>, fragment: string,
                                            decode: string -> Option<ChatCompletionStreamResponse>)
    ensures Decoded(lines, Client.Eof(fragment), decode) == Decoded(lines, Client.Eof(""), decode)
    ensures forall e | e in Decoded(lines, Client.Eof(fragment), decode) :: !(e.Failure? && e.error.ReadFailed?)
  {
    if lines != [] {
      EofDropsFragment(lines[1..], fragment, decode);
    }
  }

  /** A read error before any sentinel yields exactly one read-error element, the last one. */
  lemma ReadErrorIsLast(lines: seq<string>, partial: string, cause: string,
                        decode: string -> Option<ChatCompletionStreamResponse>)
    requires NoDone(lines)
    ensures var out := Decoded(lines, Client.ReadFailure(partial, cause), decode);
            && |out| >= 1 && out[|out| - 1] == Failure(ReadFailed(cause))
            && forall k | 0 <= k < |out| - 1 :: !(out[k].Failure? && out[k].error.ReadFailed?)
  {
    var out := Decoded(lines, Client.ReadFailure(partial, cause), decode);
    DecodedAppend(lines, [], Client.ReadFailure(partial, cause), decode);
    assert lines + [] == lines;
    EofDropsFragment(lines, "", decode);
    var prefix := Decoded(lines, Client.Eof(""), decode);
    assert out == prefix + [Failure(ReadFailed(cause))];
    forall k | 0 <= k < |out| - 1 ensures !(out[k].Failure? && out[k].error.ReadFailed?) {
      assert out[k] == prefix[k] && prefix[k] in prefix;
    }
  }

  /** "data: " + p + a line break carries the payload p, when p is trimmed text other than [DONE]. */
  lemma DataLine(p: string)
    requires p != [] && !IsSpace(p[0]) && !IsSpace(p[|p| - 1]) && p != DoneSentinel
    ensures Classify(DataPrefix + p + "\n") == Payload(p)
  {
    assert DataPrefix + p + "\n" == DataPrefix + [] + p + "\n";
    PaddedDataLine([], p, "\n");
  }

  lemma DoneLine()
    ensures Classify("data: [DONE]\n") == Done
  {
    assert "data: [DONE]\n" == DataPrefix + [] + DoneSentinel + "\n";
    PaddedDataLine([], DoneSentinel, "\n");
  }

  /**
   * Two data lines and the sentinel: exactly the two decoded increments, in
   * order, whatever follows the sentinel and however the body ends.
   */
  lemma TwoIncrementsThenDone(p1: string, p2: string,
                              first: ChatCompletionStreamResponse, second: ChatCompletionStreamResponse,
                              rest: seq<string>, end: Client.StreamEnd,
                              decode: string -> Option<ChatCompletionStreamResponse>)
    requires p1 != [] && !IsSpace(p1[0]) && !IsSpace(p1[|p1| - 1]) && p1 != DoneSentinel
    requires p2 != [] && !IsSpace(p2[0]) && !IsSpace(p2[|p2| - 1]) && p2 != DoneSentinel
    requires decode(p1) == Some(first) && decode(p2) == Some(second)
    ensures Decoded([DataPrefix + p1 + "\n", DataPrefix + p2 + "\n", "data: [DONE]\n"] + rest, end, decode)
            == [Increment(first), Increment(second)]
  {
    var l1, l2, l3 := DataPrefix + p1 + "\n", DataPrefix + p2 + "\n", "data: [DONE]\n";
    DataLine(p1);
    DataLine(p2);
    DoneLine();
    DecodedCons(l1, [l2, l3] + rest, end, decode);
    DecodedCons(l2, [l3] + rest, end, decode);
    assert [l1, l2, l3] + rest == [l1] + ([l2, l3] + rest);
    assert [l2, l3] + rest == [l2] + ([l3] + rest);
    assert ([l3] + rest)[0] == l3;
    assert DecodeAll([p1], decode) == [Increment(first)];
    assert DecodeAll([p2], decode) == [Increment(second)];
  }

  // ---------------------------------------------------------------------------
  // The chat operations

  /** The parser a streaming call never uses. */
  function Unparsed(text: string): Option<JsonObject>
  {
    None
  }

  /**
   * Chat: a buffered POST of the chat body; a transport error is returned as
   * it is, and a parsed object is mapped onto the typed response.
   */
  method Chat(c: Client.MistralClient, model: string, messages: seq<ChatMessage>, params: Option<ChatRequestParams>,
              server: (Client.HttpRequest, nat) -> Client.Outcome, parse: string -> Option<JsonObject>,
              toStruct: JsonObject -> Option<ChatCompletionResponse>)
    returns (r: Result<ChatCompletionResponse>)
    ensures var reply := Client.Perform(c, ChatCall(model, messages, params), server, parse).reply;
            && (reply.Failed? ==> r == Err(reply.error))
            && (reply.Parsed? && toStruct(reply.obj).Some? ==> r == Ok(toStruct(reply.obj).value))
            && (reply.Parsed? && toStruct(reply.obj).None? ==> r == Err(MappingError))
    ensures r != Err(InvalidResponseType)
  {
    var call := ChatCall(model, messages, params);
    var attempts, waits, reply := Client.Request(c, call, server, parse);
    Client.ReplyMatchesMode(c, call, server, parse);
    match reply {
      case Failed(e) =>
        r := Err(e);
      case StreamBody(_) =>
        r := Err(InvalidResponseType);
      case Parsed(obj) =>
        match toStruct(obj) {
          case None => r := Err(MappingError);
          case Some(v) => r := Ok(v);
        }
    }
  }

  /**
   * ChatStream: a streaming POST of the streaming body; on success the body
   * is decoded into the sequence a consumer of the channel receives.
   */
  method ChatStream(c: Client.MistralClient, model: string, messages: seq<ChatMessage>, params: Option<ChatRequestParams>,
                    server: (Client.HttpRequest, nat) -> Client.Outcome,
                    decode: string -> Option<ChatCompletionStreamResponse>)
    returns (r: Result<seq<Element>>)
    ensures var reply := Client.Perform(c, ChatStreamCall(model, messages, params), server, Unparsed).reply;
            && (reply.Failed? ==> r == Err(reply.error))
            && (reply.StreamBody? ==> r == Ok(Decoded(reply.body.lines, reply.body.end, decode)))
    ensures r != Err(InvalidResponseType)
  {
    var call := ChatStreamCall(model, messages, params);
    var attempts, waits, reply := Client.Request(c, call, server, Unparsed);
    Client.ReplyMatchesMode(c, call, server, Unparsed);
    match reply {
      case Failed(e) =>
        r := Err(e);
      case Parsed(_) =>
        r := Err(InvalidResponseType);
      case StreamBody(body) =>
        var elements := DecodeStream(body, decode);
        r := Ok(elements);
    }
  }
}
