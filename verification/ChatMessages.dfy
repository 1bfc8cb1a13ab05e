/** Chat messages, and the shape of one turn of a conversation. */
module ChatMessages {
  import opened Sequences

  datatype Role = User | Assistant | Tool | System

  /** A signature the provider did not give is empty. */
  datatype ToolCall = ToolCall(id: string, toolName: string, arguments: string, thoughtSignature: string)

  /** A missing `toolCalls` list is an empty one: the source never tells them apart. */
  datatype LlmMessage = LlmMessage(
    role: Role, content: string, toolCallId: string, toolName: string, toolCalls: seq<ToolCall>)

  function UserMessage(content: string): LlmMessage {
    LlmMessage(User, content, "", "", [])
  }

  function AssistantMessage(content: string): LlmMessage {
    LlmMessage(Assistant, content, "", "", [])
  }

  predicate IsToolRequest(message: LlmMessage) {
    message.role == Assistant && message.toolCalls != []
  }

  /** `results` answer `calls` one for one, in order. */
  predicate Answers(results: seq<LlmMessage>, calls: seq<ToolCall>) {
    && |results| == |calls|
    && forall i :: 0 <= i < |calls| ==> results[i].role == Tool && results[i].toolCallId == calls[i].id
  }

  /** A tool request with its results. */
  datatype Group = Group(request: LlmMessage, results: seq<LlmMessage>)

  predicate ValidGroup(group: Group) {
    IsToolRequest(group.request) && Answers(group.results, group.request.toolCalls)
  }

  function GroupMessages(group: Group): seq<LlmMessage> {
    [group.request] + group.results
  }

  function FlattenGroups(groups: seq<Group>): seq<LlmMessage> {
    if groups == [] then [] else FlattenGroups(groups[..|groups| - 1]) + GroupMessages(groups[|groups| - 1])
  }

  /** One turn: the user's message, tool requests with their results, the assistant's reply. */
  datatype Turn = Turn(user: LlmMessage, groups: seq<Group>, reply: LlmMessage)

  ghost predicate ValidTurn(turn: Turn) {
    && turn.user.role == User
    && (forall i :: 0 <= i < |turn.groups| ==> ValidGroup(turn.groups[i]))
    && turn.reply.role == Assistant && turn.reply.toolCalls == []
  }

  function TurnMessages(turn: Turn): seq<LlmMessage> {
    [turn.user] + FlattenGroups(turn.groups) + [turn.reply]
  }

  function Flatten(turns: seq<Turn>): seq<LlmMessage> {
    if turns == [] then [] else Flatten(turns[..|turns| - 1]) + TurnMessages(turns[|turns| - 1])
  }

  ghost predicate ValidTurns(turns: seq<Turn>) {
    forall i :: 0 <= i < |turns| ==> ValidTurn(turns[i])
  }

  /** A position between two turns, or at either end. */
  ghost predicate IsBoundary(turns: seq<Turn>, position: int) {
    exists i :: 0 <= i <= |turns| && position == |Flatten(turns[..i])|
  }

  lemma FlattenAppend(turns: seq<Turn>, turn: Turn)
    ensures Flatten(turns + [turn]) == Flatten(turns) + TurnMessages(turn)
  {
    assert (turns + [turn])[..|turns|] == turns;
  }

  lemma FlattenSplitGrows(a: seq<Turn>, b: seq<Turn>, last: Turn)
    requires Flatten(a + b) == Flatten(a) + Flatten(b)
    ensures Flatten(a + (b + [last])) == Flatten(a) + Flatten(b + [last])
  {
    FlattenAppend(a + b, last);
    FlattenAppend(b, last);
    Assoc(a, b, [last]);
    Assoc(Flatten(a), Flatten(b), TurnMessages(last));
  }

  lemma {:induction false} FlattenConcat(a: seq<Turn>, b: seq<Turn>)
    ensures Flatten(a + b) == Flatten(a) + Flatten(b)
  {
    if b == [] {
      assert a + b == a;
    } else {
      var n := |b| - 1;
      FlattenConcat(a, b[..n]);
      FlattenSplitGrows(a, b[..n], b[n]);
      SplitLast(b);
    }
  }

  lemma FlattenSplit(turns: seq<Turn>, i: nat)
    requires i <= |turns|
    ensures Flatten(turns) == Flatten(turns[..i]) + Flatten(turns[i..])
  {
    var a, b := turns[..i], turns[i..];
    assert a + b == turns;
    FlattenConcat(a, b);
  }

  lemma FlattenStart(turns: seq<Turn>)
    requires ValidTurns(turns) && turns != []
    ensures Flatten(turns) != [] && Flatten(turns)[0].role == User
  {
    FlattenSplit(turns, 1);
    assert turns[..1] == [turns[0]];
    assert [turns[0]][..0] == [];
    assert Flatten([turns[0]]) == Flatten([]) + TurnMessages(turns[0]);
  }

  /** What follows a boundary is a whole number of turns, so it starts with the user. */
  lemma BoundarySuffix(turns: seq<Turn>, position: int) returns (i: nat)
    requires ValidTurns(turns) && IsBoundary(turns, position)
    ensures i <= |turns| && position == |Flatten(turns[..i])| <= |Flatten(turns)|
    ensures Flatten(turns)[..position] == Flatten(turns[..i])
    ensures Flatten(turns)[position..] == Flatten(turns[i..]) && ValidTurns(turns[i..])
    ensures position < |Flatten(turns)| ==> Flatten(turns)[position].role == User
  {
    i :| 0 <= i <= |turns| && position == |Flatten(turns[..i])|;
    FlattenSplit(turns, i);
    if i < |turns| {
      FlattenStart(turns[i..]);
    }
  }

  lemma BoundaryKept(turns: seq<Turn>, turn: Turn, position: int)
    requires IsBoundary(turns, position)
    ensures IsBoundary(turns + [turn], position)
  {
    var i :| 0 <= i <= |turns| && position == |Flatten(turns[..i])|;
    assert (turns + [turn])[..i] == turns[..i];
  }

  lemma EndsAreBoundaries(turns: seq<Turn>)
    ensures IsBoundary(turns, 0) && IsBoundary(turns, |Flatten(turns)|)
  {
    assert turns[..0] == [] && turns[..|turns|] == turns;
  }

  lemma FlattenGroupsAppend(groups: seq<Group>, group: Group)
    ensures FlattenGroups(groups + [group]) == FlattenGroups(groups) + GroupMessages(group)
  {
    assert (groups + [group])[..|groups|] == groups;
  }

  lemma {:induction false} GroupsHoldNoUser(groups: seq<Group>)
    requires forall i :: 0 <= i < |groups| ==> ValidGroup(groups[i])
    ensures forall m :: m in FlattenGroups(groups) ==> m.role == Tool || IsToolRequest(m)
  {
    if groups != [] {
      GroupsHoldNoUser(groups[..|groups| - 1]);
    }
  }
}
