/** Which part of a session goes into the next prompt. */
module ConversationContext {
  import opened ChatMessages

  const SUMMARY_MESSAGE_INTERVAL := 15
  const HISTORY_TAIL_CEILING := SUMMARY_MESSAGE_INTERVAL * 2

  function Tail(messages: seq<LlmMessage>, maxMessages: nat): seq<LlmMessage> {
    if |messages| > maxMessages then messages[|messages| - maxMessages..] else messages
  }

  function FromFirstUser(messages: seq<LlmMessage>): seq<LlmMessage> {
    if messages == [] || messages[0].role == User then messages else FromFirstUser(messages[1..])
  }

  function PromptHistory(messages: seq<LlmMessage>, maxMessages: nat): seq<LlmMessage> {
    FromFirstUser(Tail(messages, maxMessages))
  }

  /** The longest suffix of at most `maxMessages` messages that starts with the user: what it leaves out either lies
      further back than that or is no user message. */
  ghost predicate IsLongestFromUser(messages: seq<LlmMessage>, context: seq<LlmMessage>, maxMessages: nat) {
    && |context| <= |messages| && |context| <= maxMessages
    && context == messages[|messages| - |context|..]
    && (context != [] ==> context[0].role == User)
    && forall i :: 0 <= i < |messages| - |context| && |messages| - maxMessages <= i ==> messages[i].role != User
  }

  method GetPromptHistory(messages: seq<LlmMessage>, maxMessages: nat) returns (context: seq<LlmMessage>)
    ensures context == PromptHistory(messages, maxMessages)
    ensures IsLongestFromUser(messages, context, maxMessages)
  {
    PromptHistoryIsLongest(messages, maxMessages);
    if messages == [] {
      return [];
    }
    var bounded := if |messages| > maxMessages then messages[|messages| - maxMessages..] else messages;
    context := RemoveIncompleteToolContext(bounded);
  }

  method RemoveIncompleteToolContext(messages: seq<LlmMessage>) returns (context: seq<LlmMessage>)
    ensures context == FromFirstUser(messages)
    ensures context != [] ==> context[0].role == User
  {
    context := messages;
    while context != [] && context[0].role == Tool
      invariant FromFirstUser(context) == FromFirstUser(messages)
    {
      context := context[1..];
    }
    while context != [] && context[0].role != User
      invariant FromFirstUser(context) == FromFirstUser(messages)
    {
      context := context[1..];
    }
  }

  /** It drops as little as it can: the result is the suffix at the first user message. */
  lemma {:induction false} FromFirstUserIsSuffix(messages: seq<LlmMessage>) returns (dropped: nat)
    ensures dropped <= |messages| && FromFirstUser(messages) == messages[dropped..]
    ensures dropped < |messages| ==> messages[dropped].role == User
    ensures forall i :: 0 <= i < dropped ==> messages[i].role != User
  {
    if messages == [] || messages[0].role == User {
      return 0;
    }
    dropped := FromFirstUserIsSuffix(messages[1..]);
    forall i | 0 <= i < dropped + 1
      ensures messages[i].role != User
    {
      assert i > 0 ==> messages[i] == messages[1..][i - 1];
    }
    dropped := dropped + 1;
  }

  /** Inside one turn only its first message is the user's. */
  lemma TurnHasOneUser(turn: Turn, k: nat)
    requires ValidTurn(turn) && k < |TurnMessages(turn)|
    ensures TurnMessages(turn)[k].role == User <==> k == 0
  {
    GroupsHoldNoUser(turn.groups);
    var groups := FlattenGroups(turn.groups);
    if 0 < k <= |groups| {
      assert TurnMessages(turn)[k] == groups[k - 1] && groups[k - 1] in groups;
    }
  }

  /** In a session of whole turns every user message starts a turn. */
  lemma {:induction false} UserStartsTurn(turns: seq<Turn>, k: nat)
    requires ValidTurns(turns) && k < |Flatten(turns)| && Flatten(turns)[k].role == User
    ensures IsBoundary(turns, k)
  {
    var n := |turns| - 1;
    var front := Flatten(turns[..n]);
    if k < |front| {
      UserStartsTurn(turns[..n], k);
      BoundaryKept(turns[..n], turns[n], k);
      assert turns[..n] + [turns[n]] == turns;
    } else {
      TurnHasOneUser(turns[n], k - |front|);
      assert k == |front|;
    }
  }

  lemma PromptHistoryIsSuffix(messages: seq<LlmMessage>, maxMessages: nat) returns (offset: nat)
    ensures offset <= |messages| && PromptHistory(messages, maxMessages) == messages[offset..]
    ensures |messages| - offset <= maxMessages
    ensures offset < |messages| ==> messages[offset].role == User
    ensures forall i :: 0 <= i < offset && |messages| - maxMessages <= i ==> messages[i].role != User
  {
    var tail := Tail(messages, maxMessages);
    var cut := |messages| - |tail|;
    var dropped := FromFirstUserIsSuffix(tail);
    offset := cut + dropped;
    assert tail == messages[cut..];
    forall i | 0 <= i < offset && |messages| - maxMessages <= i
      ensures messages[i].role != User
    {
      assert messages[i] == tail[i - cut];
    }
  }

  lemma PromptHistoryIsLongest(messages: seq<LlmMessage>, maxMessages: nat)
    ensures IsLongestFromUser(messages, PromptHistory(messages, maxMessages), maxMessages)
  {
    var offset := PromptHistoryIsSuffix(messages, maxMessages);
  }

  /** There is only one such suffix. */
  lemma LongestFromUserIsUnique(messages: seq<LlmMessage>, context: seq<LlmMessage>, maxMessages: nat)
    requires IsLongestFromUser(messages, context, maxMessages)
    ensures context == PromptHistory(messages, maxMessages)
  {
    var offset := PromptHistoryIsSuffix(messages, maxMessages);
  }

  /** The prompt history is a whole number of the most recent turns, and as many as fit: it starts at the first turn
      boundary past the cursor from which at most `maxMessages` messages follow. */
  lemma PromptHistoryIsWholeTurns(turns: seq<Turn>, session: seq<LlmMessage>, cursor: nat, maxMessages: nat)
    returns (position: nat)
    requires ValidTurns(turns) && IsBoundary(turns, cursor) && session == Flatten(turns)
    ensures cursor <= position <= |session| && IsBoundary(turns, position)
    ensures PromptHistory(session[cursor..], maxMessages) == session[position..]
    ensures |session| - position <= maxMessages
    ensures forall b: nat :: cursor <= b < position && IsBoundary(turns, b) ==> |session| - b > maxMessages
  {
    var i := BoundarySuffix(turns, cursor);
    var rest := session[cursor..];
    var offset := PromptHistoryIsSuffix(rest, maxMessages);
    position := cursor + offset;
    assert rest[offset..] == session[position..];
    if position < |session| {
      assert rest[offset] == session[position];
      UserStartsTurn(turns, position);
    } else {
      EndsAreBoundaries(turns);
    }
    forall b: nat | cursor <= b < position && IsBoundary(turns, b)
      ensures |session| - b > maxMessages
    {
      BoundaryStartsWithUser(turns, session, b);
      EarlierUserIsTooFar(session, cursor, maxMessages, offset, b);
    }
  }

  lemma EarlierUserIsTooFar(session: seq<LlmMessage>, cursor: nat, maxMessages: nat, offset: nat, b: nat)
    requires cursor <= b < cursor + offset <= |session| && session[b].role == User
    requires forall i :: 0 <= i < offset && |session| - cursor - maxMessages <= i ==> session[cursor..][i].role != User
    ensures |session| - b > maxMessages
  {
    assert session[cursor..][b - cursor] == session[b];
  }

  lemma BoundaryStartsWithUser(turns: seq<Turn>, session: seq<LlmMessage>, b: nat)
    requires ValidTurns(turns) && IsBoundary(turns, b) && session == Flatten(turns) && b < |session|
    ensures session[b].role == User
  {
    var i := BoundarySuffix(turns, b);
  }

  lemma AllKeptExactly(messages: seq<LlmMessage>, maxMessages: nat)
    requires messages != [] ==> messages[0].role == User
    ensures PromptHistory(messages, maxMessages) == messages <==> |messages| <= maxMessages
  {
    var offset := PromptHistoryIsSuffix(messages, maxMessages);
  }

  lemma SamePrefixCancels<T>(prefix: seq<T>, a: seq<T>, b: seq<T>)
    ensures prefix + a == prefix + b <==> a == b
  {
    if prefix + a == prefix + b {
      assert a == (prefix + a)[|prefix|..] && b == (prefix + b)[|prefix|..];
    }
  }

  lemma CoversExactly(session: seq<LlmMessage>, cursor: nat, maxMessages: nat)
    requires cursor <= |session| && (cursor < |session| ==> session[cursor].role == User)
    ensures (session[..cursor] + PromptHistory(session[cursor..], maxMessages) == session)
       <==> |session| - cursor <= maxMessages
  {
    var prefix, rest := session[..cursor], session[cursor..];
    assert session == prefix + rest;
    SamePrefixCancels(prefix, PromptHistory(rest, maxMessages), rest);
    AllKeptExactly(rest, maxMessages);
  }

  /** The summarised prefix and the prompt history cover the session without gap or overlap exactly while no more than
      the ceiling lies past the cursor. */
  lemma CoversWithoutGapExactly(turns: seq<Turn>, session: seq<LlmMessage>, cursor: nat, maxMessages: nat)
    requires ValidTurns(turns) && IsBoundary(turns, cursor) && session == Flatten(turns)
    ensures cursor <= |session|
    ensures (session[..cursor] + PromptHistory(session[cursor..], maxMessages) == session)
       <==> |session| - cursor <= maxMessages
  {
    var i := BoundarySuffix(turns, cursor);
    CoversExactly(session, cursor, maxMessages);
  }
}
