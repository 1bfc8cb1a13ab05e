/** The mapping from stored messages to the provider's contents, and the pairing rule the provider enforces. */
module GeminiContents {
  import opened ChatMessages
  import opened Whitespace

  datatype Speaker = UserSide | ModelSide

  datatype Part =
    | Text(text: string)
    | FunctionCall(id: string, name: string, arguments: string, thoughtSignature: string)
    | FunctionResponse(id: string, name: string, response: string)

  datatype Content = Content(role: Speaker, parts: seq<Part>)

  // ---- One message ----

  function ResponsePart(message: LlmMessage): Part {
    FunctionResponse(message.toolCallId, message.toolName, message.content)
  }

  function CallParts(calls: seq<ToolCall>): seq<Part> {
    seq(|calls|, i requires 0 <= i < |calls| =>
      FunctionCall(calls[i].id, calls[i].toolName, calls[i].arguments, calls[i].thoughtSignature))
  }

  function RequestContent(message: LlmMessage): Content {
    var text := Trim(message.content);
    Content(ModelSide, (if text != "" then [Text(text)] else []) + CallParts(message.toolCalls))
  }

  function TextContent(message: LlmMessage): Content {
    Content(if message.role == Assistant then ModelSide else UserSide, [Text(message.content)])
  }

  function NonToolContent(message: LlmMessage): Content {
    if IsToolRequest(message) then RequestContent(message) else TextContent(message)
  }

  // ---- The whole list ----

  function WithoutSystem(messages: seq<LlmMessage>): seq<LlmMessage> {
    if messages == [] then []
    else
      var front, last := WithoutSystem(messages[..|messages| - 1]), messages[|messages| - 1];
      if last.role == System then front else front + [last]
  }

  /** The position of the last user message, or -1. */
  function LastUserIndex(messages: seq<LlmMessage>): (index: int)
    ensures -1 <= index < |messages|
    ensures index >= 0 ==> messages[index].role == User
    ensures forall i :: index < i < |messages| ==> messages[i].role != User
  {
    if messages == [] then -1
    else if messages[|messages| - 1].role == User then |messages| - 1
    else LastUserIndex(messages[..|messages| - 1])
  }

  /** Earlier turns keep what was said: no tool results, and tool requests only for their text. */
  function WithoutTools(messages: seq<LlmMessage>): seq<LlmMessage> {
    if messages == [] then []
    else
      var front, last := WithoutTools(messages[..|messages| - 1]), messages[|messages| - 1];
      if last.role == Tool then front
      else if IsToolRequest(last) then
        if Trim(last.content) != "" then front + [AssistantMessage(Trim(last.content))] else front
      else front + [last]
  }

  function Sanitized(messages: seq<LlmMessage>): seq<LlmMessage> {
    var lastUser := LastUserIndex(messages);
    if lastUser < 0 then messages else WithoutTools(messages[..lastUser]) + messages[lastUser..]
  }

  /** One entry for each message, except that a run of tool results shares one. */
  function Entries(messages: seq<LlmMessage>): (contents: seq<Content>)
    ensures messages != [] ==> contents != []
  {
    if messages == [] then []
    else
      var n := |messages| - 1;
      var front, last := Entries(messages[..n]), messages[n];
      if last.role != Tool then front + [NonToolContent(last)]
      else if n > 0 && messages[n - 1].role == Tool then
        var joined := front[|front| - 1];
        front[|front| - 1 := joined.(parts := joined.parts + [ResponsePart(last)])]
      else front + [Content(UserSide, [ResponsePart(last)])]
  }

  function Contents(messages: seq<LlmMessage>): seq<Content> {
    Entries(Sanitized(WithoutSystem(messages)))
  }

  // ---- The mapper's loops ----

  predicate HoldsResponse(content: Content) {
    exists i :: 0 <= i < |content.parts| && content.parts[i].FunctionResponse?
  }

  predicate EndsInResponse(contents: seq<Content>) {
    contents != [] && contents[|contents| - 1].role == UserSide && HoldsResponse(contents[|contents| - 1])
  }

  /** Whether the last message was a tool result can be read off the last entry. */
  lemma {:induction false} LastEntryTellsRole(messages: seq<LlmMessage>)
    ensures EndsInResponse(Entries(messages)) <==> messages != [] && messages[|messages| - 1].role == Tool
  {
    if messages != [] && messages[|messages| - 1].role == Tool {
      var last := Entries(messages)[|Entries(messages)| - 1];
      assert last.parts[|last.parts| - 1].FunctionResponse?;
      LastEntryTellsRole(messages[..|messages| - 1]);
    }
  }

  method SanitizeHistoricalToolMessages(messages: seq<LlmMessage>) returns (result: seq<LlmMessage>)
    ensures result == Sanitized(messages)
  {
    var lastUserIndex := LastUserIndex(messages);
    var split := if lastUserIndex < 0 then 0 else lastUserIndex;
    result := [];
    for idx := 0 to |messages|
      invariant idx <= split ==> result == WithoutTools(messages[..idx])
      invariant idx >= split ==> result == WithoutTools(messages[..split]) + messages[split..idx]
    {
      var msg := messages[idx];
      assert messages[..idx + 1][..idx] == messages[..idx];
      if idx < lastUserIndex {
        if msg.role == Tool {
          continue;
        }
        if IsToolRequest(msg) {
          if Trim(msg.content) != "" {
            result := result + [AssistantMessage(Trim(msg.content))];
          }
          continue;
        }
      }
      result := result + [msg];
    }
    assert messages[split..|messages|] == messages[split..];
  }

  method ToGeminiContents(messages: seq<LlmMessage>) returns (contents: seq<Content>)
    ensures contents == Contents(messages)
  {
    if messages == [] {
      return [];
    }
    var sanitizedMessages := SanitizeHistoricalToolMessages(WithoutSystem(messages));
    contents := [];
    for i := 0 to |sanitizedMessages|
      invariant contents == Entries(sanitizedMessages[..i])
    {
      var message := sanitizedMessages[i];
      assert sanitizedMessages[..i + 1][..i] == sanitizedMessages[..i];
      LastEntryTellsRole(sanitizedMessages[..i]);
      if message.role == Tool {
        var toolPart := ResponsePart(message);
        if EndsInResponse(contents) {
          var last := contents[|contents| - 1];
          contents := contents[|contents| - 1 := last.(parts := last.parts + [toolPart])];
        } else {
          contents := contents + [Content(UserSide, [toolPart])];
        }
        continue;
      }
      contents := contents + [NonToolContent(message)];
    }
    assert sanitizedMessages[..|sanitizedMessages|] == sanitizedMessages;
  }
}
