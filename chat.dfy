/**
 * `chatWithEditor` of services/geminiService.ts: the chat history and the user's message
 * go to the hosted model, and the reply's parts are turned into a `ChatResponse` — the text
 * of the first part that has text, and the request of the last `request_refinement` call.
 */
module Chat {
  import opened Wrappers
  import opened Types

  /** `{role, parts: [{text}, ...]}`. */
  datatype Content = Content(role: string, texts: seq<string>)

  /** The arguments of a function call, as the tool declares them (either may be missing). */
  datatype Args = Args(target: Option<string>, instruction: Option<string>)

  /** A function call of the reply; the model may send one without any arguments. */
  datatype FunctionCall = FunctionCall(name: string, args: Option<Args>)

  datatype ResponsePart = ResponsePart(text: Option<string>, functionCall: Option<FunctionCall>)

  datatype RefinementRequest = RefinementRequest(target: Option<string>, instruction: Option<string>)

  datatype ChatResponse = ChatResponse(text: string, refinementRequest: Option<RefinementRequest>)

  const RefinementTool: string := "request_refinement"

  /** The text used when the reply asks for a refinement but has no text. */
  const Placeholder: string :=
    "\U{6536}\U{5230}\U{FF0C}\U{6B63}\U{5728}\U{8C03}\U{52A8}\U{6DF1}\U{5EA6}\U{7F16}\U{8F91}\U{5F15}\U{64CE}\U{8FDB}\U{884C}\U{4FEE}\U{6539}..."

  /** The answer when the call throws. */
  const Apology: string :=
    "\U{62B1}\U{6B49}\U{FF0C}\U{7F16}\U{8F91}\U{5668}\U{9047}\U{5230}\U{4E86}\U{4E00}\U{4E9B}\U{95EE}\U{9898}\U{FF0C}\U{8BF7}\U{7A0D}\U{540E}\U{518D}\U{8BD5}\U{3002}"

  /** What reading `args.target` of a call without arguments throws. */
  const TypeError: string := "TypeError"

  /** The request: the history, then the user's message. */
  function Contents(history: seq<Content>, userMessage: string): (contents: seq<Content>)
    ensures |contents| == |history| + 1 && contents[..|history|] == history
  {
    history + [Content("user", [userMessage])]
  }

  /** The index `find(p => p.text)` stops at: the first part with a non-empty text, `|parts|` if none. */
  function FirstTextIndex(parts: seq<ResponsePart>): (i: nat)
    ensures i <= |parts| && (i < |parts| ==> Truthy(parts[i].text))
    ensures forall j :: 0 <= j < i ==> !Truthy(parts[j].text)
  {
    if parts == [] then 0
    else if Truthy(parts[0].text) then 0
    else 1 + FirstTextIndex(parts[1..])
  }

  function FirstText(parts: seq<ResponsePart>): Option<string> {
    var i := FirstTextIndex(parts);
    if i < |parts| then parts[i].text else None
  }

  predicate IsRefinement(p: ResponsePart) {
    p.functionCall.Some? && p.functionCall.value.name == RefinementTool
  }

  /** A refinement call whose arguments are missing: the loop throws when it reaches one. */
  predicate MissingArgs(p: ResponsePart) {
    IsRefinement(p) && p.functionCall.value.args.None?
  }

  predicate ArgsMissing(parts: seq<ResponsePart>) {
    exists k :: 0 <= k < |parts| && MissingArgs(parts[k])
  }

  lemma ArgsMissingSnoc(parts: seq<ResponsePart>, p: ResponsePart)
    ensures ArgsMissing(parts + [p]) <==> ArgsMissing(parts) || MissingArgs(p)
  {
    var q := parts + [p];
    if ArgsMissing(parts) {
      var k :| 0 <= k < |parts| && MissingArgs(parts[k]);
      assert q[k] == parts[k];
    }
    if MissingArgs(p) {
      assert q[|parts|] == p;
    }
    if ArgsMissing(q) {
      var k :| 0 <= k < |q| && MissingArgs(q[k]);
      if k < |parts| {
        assert q[k] == parts[k];
      }
    }
  }

  /** `filter(p => p.functionCall)`: it keeps every refinement call, so one without arguments too. */
  function ToolCalls(parts: seq<ResponsePart>): (calls: seq<ResponsePart>)
    ensures ArgsMissing(calls) <==> ArgsMissing(parts)
  {
    if parts == [] then []
    else
      var front, last := parts[..|parts| - 1], parts[|parts| - 1];
      assert parts == front + [last];
      ArgsMissingSnoc(front, last);
      if last.functionCall.Some? then
        ArgsMissingSnoc(ToolCalls(front), last);
        ToolCalls(front) + [last]
      else
        ToolCalls(front)
  }

  function RequestOf(p: ResponsePart): RefinementRequest
    requires p.functionCall.Some? && p.functionCall.value.args.Some?
  {
    RefinementRequest(p.functionCall.value.args.value.target, p.functionCall.value.args.value.instruction)
  }

  /** The request of the last refinement call, as the loop leaves it when it does not throw. */
  function LastRefinement(parts: seq<ResponsePart>): Option<RefinementRequest>
    requires !ArgsMissing(parts)
  {
    if parts == [] then None
    else
      var front, last := parts[..|parts| - 1], parts[|parts| - 1];
      assert parts == front + [last];
      ArgsMissingSnoc(front, last);
      if IsRefinement(last) then Some(RequestOf(last))
      else LastRefinement(front)
  }

  /**
   * The outcome of the extraction (no parts at all when the reply has no candidate content):
   * it throws when a refinement call has no arguments.
   */
  function Extracted(parts: Option<seq<ResponsePart>>): Reply<ChatResponse> {
    var ps := if parts.Some? then parts.value else [];
    if ArgsMissing(ps) then Failure(TypeError)
    else
      var request := LastRefinement(ps);
      var first := FirstText(ps);
      Success(ChatResponse(if first.Some? then first.value else if request.Some? then Placeholder else "", request))
  }

  lemma LastRefinementSnoc(parts: seq<ResponsePart>, p: ResponsePart)
    requires !ArgsMissing(parts + [p])
    ensures !ArgsMissing(parts) && !MissingArgs(p)
    ensures LastRefinement(parts + [p]) == if IsRefinement(p) then Some(RequestOf(p)) else LastRefinement(parts)
  {
    ArgsMissingSnoc(parts, p);
    assert (parts + [p])[..|parts|] == parts;
  }

  /** Leaving out the parts without a function call leaves the last refinement as it is. */
  lemma {:induction false} ToolCallsKeepRefinement(parts: seq<ResponsePart>)
    requires !ArgsMissing(parts)
    ensures LastRefinement(ToolCalls(parts)) == LastRefinement(parts)
  {
    if parts != [] {
      var front, last := parts[..|parts| - 1], parts[|parts| - 1];
      assert parts == front + [last];
      ArgsMissingSnoc(front, last);
      ToolCallsKeepRefinement(front);
      if last.functionCall.Some? {
        LastRefinementSnoc(ToolCalls(front), last);
      } else {
        assert ToolCalls(parts) == ToolCalls(front);
      }
    }
  }

  /**
   * The part-extraction code: `find` for the text, then the loop over the function calls,
   * which throws at the first refinement call without arguments.
   */
  method ExtractResponse(parts: Option<seq<ResponsePart>>) returns (result: Reply<ChatResponse>)
    ensures result == Extracted(parts)
  {
    var ps := if parts.Some? then parts.value else [];
    var response := ChatResponse("", None);
    var toolCalls := ToolCalls(ps);
    var textPart := FirstText(ps);
    if textPart.Some? {
      response := response.(text := textPart.value);
    }
    for i := 0 to |toolCalls|
      invariant !ArgsMissing(toolCalls[..i])
      invariant response.refinementRequest == LastRefinement(toolCalls[..i])
      invariant response.text ==
        if textPart.Some? then textPart.value else if response.refinementRequest.Some? then Placeholder else ""
    {
      assert toolCalls[..i + 1] == toolCalls[..i] + [toolCalls[i]];
      var fc := toolCalls[i].functionCall;
      if fc.Some? && fc.value.name == RefinementTool {
        if fc.value.args.None? {
          assert MissingArgs(toolCalls[i]);
          return Failure(TypeError);
        }
        var args := fc.value.args.value;
        response := response.(refinementRequest := Some(RefinementRequest(args.target, args.instruction)));
        if response.text == "" {
          response := response.(text := Placeholder);
        }
      }
      ArgsMissingSnoc(toolCalls[..i], toolCalls[i]);
      LastRefinementSnoc(toolCalls[..i], toolCalls[i]);
    }
    assert toolCalls[..|toolCalls|] == toolCalls;
    ToolCallsKeepRefinement(ps);
    assert textPart.Some? ==> textPart.value != "";
    return Success(response);
  }

  /** `chatWithEditor`: the extracted response, or the apology when the call or the extraction throws. */
  method ChatWithEditor(history: seq<Content>, userMessage: string,
                        generate: seq<Content> -> Reply<Option<seq<ResponsePart>>>)
    returns (result: ChatResponse)
    ensures var reply := generate(Contents(history, userMessage));
      result == if reply.Failure? || Extracted(reply.value).Failure? then ChatResponse(Apology, None)
                else Extracted(reply.value).value
  {
    var contents := history + [Content("user", [userMessage])];
    var response := generate(contents);
    if response.Failure? {
      return ChatResponse(Apology, None);
    }
    var extracted := ExtractResponse(response.value);
    if extracted.Failure? {
      return ChatResponse(Apology, None);
    }
    result := extracted.value;
  }

  // ---------------------------------------------------------------------------
  // Properties of the extraction

  /** The request comes from the last refinement call of the reply, and there is none without one. */
  lemma {:induction false} LastRefinementIsLast(parts: seq<ResponsePart>)
    requires !ArgsMissing(parts)
    ensures LastRefinement(parts).None? <==> forall k :: 0 <= k < |parts| ==> !IsRefinement(parts[k])
    ensures LastRefinement(parts).Some? ==>
      exists k :: 0 <= k < |parts| && IsRefinement(parts[k]) && LastRefinement(parts) == Some(RequestOf(parts[k]))
        && forall j :: k < j < |parts| ==> !IsRefinement(parts[j])
  {
    if parts != [] {
      var n := |parts| - 1;
      var front := parts[..n];
      assert parts == front + [parts[n]];
      ArgsMissingSnoc(front, parts[n]);
      LastRefinementIsLast(front);
      assert forall k :: 0 <= k < n ==> parts[k] == front[k];
      if !IsRefinement(parts[n]) && LastRefinement(front).Some? {
        var k :| 0 <= k < n && IsRefinement(front[k]) && LastRefinement(front) == Some(RequestOf(front[k]))
          && forall j :: k < j < n ==> !IsRefinement(front[j]);
        assert IsRefinement(parts[k]) && forall j :: k < j < |parts| ==> !IsRefinement(parts[j]);
      }
    }
  }

  /**
   * The extraction throws exactly when a refinement call has no arguments. Otherwise the
   * response's text is the first non-empty text of the reply; failing that, the placeholder
   * when a refinement is requested, and empty otherwise. A requested refinement therefore
   * always comes with a text.
   */
  lemma ExtractedText(parts: seq<ResponsePart>)
    ensures Extracted(Some(parts)).Failure? <==>
      exists k :: 0 <= k < |parts| && IsRefinement(parts[k]) && parts[k].functionCall.value.args.None?
    ensures Extracted(Some(parts)).Success? ==>
      var r := Extracted(Some(parts)).value;
      && ((exists k :: 0 <= k < |parts| && Truthy(parts[k].text)) ==>
            exists k :: 0 <= k < |parts| && Some(r.text) == parts[k].text
              && forall j :: 0 <= j < k ==> !Truthy(parts[j].text))
      && ((forall k :: 0 <= k < |parts| ==> !Truthy(parts[k].text)) ==>
            r.text == (if r.refinementRequest.Some? then Placeholder else ""))
      && (r.refinementRequest.Some? ==> r.text != "")
  {
    var i := FirstTextIndex(parts);
    if exists k :: 0 <= k < |parts| && Truthy(parts[k].text) {
      var k :| 0 <= k < |parts| && Truthy(parts[k].text);
      assert i <= k;
    }
  }

  /** A reply without any parts gives an empty response. */
  lemma NoPartsNoResponse()
    ensures Extracted(None) == Success(ChatResponse("", None))
    ensures Extracted(Some([])) == Success(ChatResponse("", None))
  {
  }
}
