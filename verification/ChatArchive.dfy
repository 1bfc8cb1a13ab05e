/** The archive of chat turns: reserved sequence numbers under concurrent transactions, and retention.

    One persist message archives one turn as two stored messages.  Its transaction increments the conversation's
    message count, which write-locks the conversation, and then inserts the pair. */
module ChatArchive {
  import opened Options
  import opened Whitespace

  const PERSISTED_MESSAGES_PER_TURN := 2
  const MILLIS_PER_DAY := 86400000

  datatype Payload = Payload(
    messageId: string, storeIdValid: bool, conversationId: string, userMessage: string, assistantMessage: string,
    cards: seq<string>)

  datatype Role = User | Assistant

  /** A message stored without cards has none. */
  datatype ChatMessage = ChatMessage(
    conversationId: string, sequence: int, role: Role, content: string, cards: seq<string>, expiresAt: Option<int>)

  datatype Conversation = Conversation(
    title: Option<string>, messageCount: nat, lastMessageAt: int, expiresAt: Option<int>)

  datatype ArchiveError = InvalidPayload | ValidationFailed

  /** The two messages of a turn, numbered from the end of the reserved range. */
  function Pair(payload: Payload, messageCount: int, expiresAt: Option<int>): seq<ChatMessage> {
    var first := messageCount - PERSISTED_MESSAGES_PER_TURN;
    [ ChatMessage(payload.conversationId, first, User, payload.userMessage, [], expiresAt),
      ChatMessage(payload.conversationId, messageCount - 1, Assistant, payload.assistantMessage, payload.cards,
                  expiresAt) ]
  }

  /** The stored schema requires a non-empty content. */
  predicate Storable(payload: Payload) {
    payload.userMessage != "" && payload.assistantMessage != ""
  }

  /** What the consumer accepts before it opens the archive. */
  predicate Acceptable(payload: Payload) {
    && payload.storeIdValid && !IsBlank(payload.conversationId)
    && (!IsBlank(payload.userMessage) || !IsBlank(payload.assistantMessage))
  }

  function ExpiryOf(archivedAt: int, retentionDays: int): Option<int> {
    if retentionDays == -1 then None else Some(archivedAt + retentionDays * MILLIS_PER_DAY)
  }

  /** `$max` keeps the later date and sets a missing one; a turn kept indefinitely unsets it. */
  function ConversationExpiry(current: Option<int>, turn: Option<int>): Option<int> {
    if turn.None? then None
    else if current.Some? && current.value > turn.value then current
    else turn
  }

  const TITLE_MAX_LENGTH := 100

  /** White space runs become one blank; `pending` says that one is open. */
  function Collapsed(text: string, pending: bool): string {
    if text == "" then (if pending then " " else "")
    else if IsSpace(text[0]) then Collapsed(text[1..], true)
    else (if pending then " " else "") + [text[0]] + Collapsed(text[1..], false)
  }

  function ConversationTitle(firstUserMessage: string): string {
    var text := Collapsed(Trim(firstUserMessage), false);
    if |text| > TITLE_MAX_LENGTH then text[..TITLE_MAX_LENGTH] else text
  }

  /** The visible characters of a text. */
  function Visible(text: string): string {
    if text == "" then ""
    else (if IsSpace(text[0]) then "" else [text[0]]) + Visible(text[1..])
  }

  /** All white space is single blanks. */
  ghost predicate SingleBlanks(text: string) {
    forall k :: 0 <= k < |text| && IsSpace(text[k]) ==> text[k] == ' ' && (k > 0 ==> !IsSpace(text[k - 1]))
  }

  lemma SingleBlanksGrow(c: char, rest: string)
    requires !IsSpace(c) && SingleBlanks(rest)
    ensures SingleBlanks([c] + rest) && SingleBlanks(" " + ([c] + rest))
  {
  }

  lemma VisibleGrow(c: char, rest: string)
    requires !IsSpace(c)
    ensures Visible([c] + rest) == [c] + Visible(rest) == Visible(" " + ([c] + rest))
  {
    assert ([c] + rest)[1..] == rest && (" " + ([c] + rest))[1..] == [c] + rest;
  }

  /** Collapsing keeps all visible characters in order; of white space it leaves single blanks. */
  lemma {:induction false} CollapsedKeepsVisible(text: string, pending: bool)
    ensures Visible(Collapsed(text, pending)) == Visible(text)
    ensures SingleBlanks(Collapsed(text, pending))
  {
    if text == "" {
      assert " "[1..] == "";
      assert Visible(" ") == Visible("");
    } else if IsSpace(text[0]) {
      CollapsedKeepsVisible(text[1..], true);
      assert Visible(text) == Visible(text[1..]);
    } else {
      var c, rest := text[0], Collapsed(text[1..], false);
      CollapsedKeepsVisible(text[1..], false);
      SingleBlanksGrow(c, rest);
      VisibleGrow(c, rest);
      CollapsedSplit(text, pending);
    }
  }

  lemma CollapsedSplit(text: string, pending: bool)
    requires text != "" && !IsSpace(text[0])
    ensures var rest := [text[0]] + Collapsed(text[1..], false);
      Collapsed(text, pending) == if pending then " " + rest else rest
    ensures Visible(text) == [text[0]] + Visible(text[1..])
  {
  }

  /** A title is the first 100 characters of the trimmed message with its white space collapsed. */
  lemma TitleMeans(firstUserMessage: string) returns (text: string)
    ensures Visible(text) == Visible(Trim(firstUserMessage))
    ensures SingleBlanks(text)
    ensures ConversationTitle(firstUserMessage) == text[..if |text| <= 100 then |text| else 100]
  {
    text := Collapsed(Trim(firstUserMessage), false);
    CollapsedKeepsVisible(Trim(firstUserMessage), false);
    assert text[..|text|] == text;
  }

  /** The header after one more turn.  The first turn names the conversation, if its message gives a title; later turns
      leave the title alone. */
  function HeaderAfter(
    current: Option<Conversation>, userMessage: string, archivedAt: int, expiresAt: Option<int>): Conversation
  {
    match current
    case None =>
      var title := ConversationTitle(userMessage);
      Conversation(if title != "" then Some(title) else None, PERSISTED_MESSAGES_PER_TURN, archivedAt, expiresAt)
    case Some(header) =>
      Conversation(header.title, header.messageCount + PERSISTED_MESSAGES_PER_TURN, archivedAt,
                   ConversationExpiry(header.expiresAt, expiresAt))
  }

  function Headed(conversations: map<string, Conversation>, conversationId: string): Option<Conversation> {
    if conversationId in conversations then Some(conversations[conversationId]) else None
  }

  // ---- What is stored of a conversation ----

  /** A conversation's messages, in storage order. */
  function MessagesOf(messages: seq<ChatMessage>, conversation: string): seq<ChatMessage> {
    if messages == [] then []
    else
      var front, last := MessagesOf(messages[..|messages| - 1], conversation), messages[|messages| - 1];
      if last.conversationId == conversation then front + [last] else front
  }

  lemma MessagesOfAppendPair(messages: seq<ChatMessage>, pair: seq<ChatMessage>, conversation: string, c: string)
    requires |pair| == 2 && pair[0].conversationId == pair[1].conversationId == conversation
    ensures MessagesOf(messages + pair, c)
         == if c == conversation then MessagesOf(messages, c) + pair else MessagesOf(messages, c)
  {
    assert messages + pair == messages + [pair[0]] + [pair[1]];
    assert (messages + [pair[0]] + [pair[1]])[..|messages| + 1] == messages + [pair[0]];
    assert (messages + [pair[0]])[..|messages|] == messages;
    assert c == conversation ==> MessagesOf(messages, c) + [pair[0]] + [pair[1]] == MessagesOf(messages, c) + pair;
  }

  /** Stored messages are numbered from 0 without a gap, the user's and the assistant's in turn. */
  ghost predicate IsNumbered(stored: seq<ChatMessage>, count: nat) {
    && |stored| == count && count % 2 == 0
    && forall k :: 0 <= k < count ==>
      stored[k].sequence == k && stored[k].role == if k % 2 == 0 then User else Assistant
  }

  lemma NumberedGrows(messages: seq<ChatMessage>, pair: seq<ChatMessage>, conversation: string, count: nat)
    requires IsNumbered(MessagesOf(messages, conversation), count)
    requires |pair| == 2 && pair[0].conversationId == pair[1].conversationId == conversation
    requires pair[0].sequence == count && pair[1].sequence == count + 1
    requires pair[0].role == User && pair[1].role == Assistant
    ensures IsNumbered(MessagesOf(messages + pair, conversation), count + 2)
  {
    MessagesOfAppendPair(messages, pair, conversation, conversation);
  }

  // ---- The repository and its consumer, one transaction at a time ----

  class ChatPersistenceRepository {
    var conversations: map<string, Conversation>
    var messages: seq<ChatMessage>

    /** Each conversation's stored messages are numbered 0 up to its header's count less one. */
    ghost predicate Valid()
      reads this
    {
      AllNumbered(messages, conversations)
    }

    constructor ()
      ensures conversations == map[] && messages == [] && Valid()
    {
      conversations, messages := map[], [];
    }

    method ReserveConversationSequence(
      conversationId: string, userMessage: string, archivedAt: int, expiresAt: Option<int>)
      returns (conversation: Conversation)
      modifies this`conversations
      ensures conversation ==
        HeaderAfter(Headed(old(conversations), conversationId), userMessage, archivedAt, expiresAt)
      ensures conversations == old(conversations)[conversationId := conversation]
      ensures conversationId !in old(conversations) ==>
        && conversation.messageCount == 2 && conversation.expiresAt == expiresAt
        && (conversation.title.None? <==> ConversationTitle(userMessage) == "")
        && (conversation.title.Some? ==> conversation.title.value == ConversationTitle(userMessage))
      ensures conversationId in old(conversations) ==>
        var before := old(conversations)[conversationId];
        && conversation.messageCount == before.messageCount + 2 && conversation.title == before.title
        && (expiresAt.None? ==> conversation.expiresAt.None?)
        && (expiresAt.Some? ==>
              && conversation.expiresAt.Some? && conversation.expiresAt.value >= expiresAt.value
              && (before.expiresAt.Some? ==> conversation.expiresAt.value >= before.expiresAt.value)
              && conversation.expiresAt in {expiresAt, before.expiresAt})
      ensures conversation.lastMessageAt == archivedAt
    {
      if conversationId in conversations {
        var current := conversations[conversationId];
        conversation := current.(messageCount := current.messageCount + PERSISTED_MESSAGES_PER_TURN,
                                 lastMessageAt := archivedAt,
                                 expiresAt := ConversationExpiry(current.expiresAt, expiresAt));
      } else {
        var title := ConversationTitle(userMessage);
        conversation := Conversation(if title != "" then Some(title) else None, PERSISTED_MESSAGES_PER_TURN, archivedAt,
                                     expiresAt);
      }
      conversations := conversations[conversationId := conversation];
    }

    /** An aborted transaction leaves nothing behind. */
    method ArchiveTurn(payload: Payload, archivedAt: int, expiresAt: Option<int>)
      returns (result: Result<nat, ArchiveError>)
      modifies this
      ensures result.Ok? <==> Storable(payload)
      ensures result.Err? ==> result.error == ValidationFailed && unchanged(this)
      ensures result.Ok? ==>
        var header :=
          HeaderAfter(Headed(old(conversations), payload.conversationId), payload.userMessage, archivedAt, expiresAt);
        && result.value == header.messageCount
        && conversations == old(conversations)[payload.conversationId := header]
        && messages == old(messages) + Pair(payload, header.messageCount, expiresAt)
      // The turn takes the next two numbers of its conversation, whatever else is stored.
      ensures result.Ok? ==>
        var n := if payload.conversationId in old(conversations)
                 then old(conversations)[payload.conversationId].messageCount else 0;
        && payload.conversationId in conversations && conversations[payload.conversationId].messageCount == n + 2
        && messages == old(messages) +
             [ChatMessage(payload.conversationId, n, User, payload.userMessage, [], expiresAt),
              ChatMessage(payload.conversationId, n + 1, Assistant, payload.assistantMessage, payload.cards, expiresAt)]
      ensures old(Valid()) ==> Valid()
    {
      var before := conversations;
      var conversation :=
        ReserveConversationSequence(payload.conversationId, payload.userMessage, archivedAt, expiresAt);
      if !Storable(payload) {
        conversations := before;
        return Err(ValidationFailed);
      }
      var pair := Pair(payload, conversation.messageCount, expiresAt);
      messages := messages + pair;
      result := Ok(conversation.messageCount);
      KeepsValid(before, conversations, old(messages), pair, payload.conversationId);
    }
  }

  ghost predicate AllNumbered(messages: seq<ChatMessage>, conversations: map<string, Conversation>) {
    forall c: string ::
      IsNumbered(MessagesOf(messages, c), if c in conversations then conversations[c].messageCount else 0)
  }

  lemma KeepsValid(
    before: map<string, Conversation>, after: map<string, Conversation>, messages: seq<ChatMessage>,
    pair: seq<ChatMessage>, conversation: string)
    requires conversation in after && after == before[conversation := after[conversation]]
    requires |pair| == 2 && pair[0].conversationId == pair[1].conversationId == conversation
    requires var n := if conversation in before then before[conversation].messageCount else 0;
      && pair[0].sequence == n && pair[1].sequence == n + 1 && after[conversation].messageCount == n + 2
      && pair[0].role == User && pair[1].role == Assistant
    ensures AllNumbered(messages, before) ==> AllNumbered(messages + pair, after)
  {
    if AllNumbered(messages, before) {
      forall c: string
        ensures IsNumbered(MessagesOf(messages + pair, c), if c in after then after[c].messageCount else 0)
      {
        assert IsNumbered(MessagesOf(messages, c), if c in before then before[c].messageCount else 0);
        if c == conversation {
          NumberedGrows(messages, pair, c, if c in before then before[c].messageCount else 0);
        } else {
          MessagesOfAppendPair(messages, pair, conversation, c);
        }
      }
    }
  }

  /** The persist consumer: validate, find the retention, archive. */
  method HandleTurn(
    repository: ChatPersistenceRepository, payload: Payload, planRetentionDays: Option<int>, defaultRetentionDays: int,
    archivedAt: int)
    returns (result: Result<nat, ArchiveError>)
    modifies repository
    ensures result.Ok? <==> Acceptable(payload) && Storable(payload)
    ensures result == Err(InvalidPayload) <==> !Acceptable(payload)
    ensures result.Err? ==> unchanged(repository)
    ensures result.Ok? ==>
      var expiresAt := ExpiryOf(archivedAt, planRetentionDays.GetOr(defaultRetentionDays));
      repository.messages == old(repository.messages) + Pair(payload, result.value, expiresAt)
    // In plain terms: two messages with the conversation's next numbers, kept for the plan's days or for ever.
    ensures result.Ok? <==>
      && payload.storeIdValid && Trim(payload.conversationId) != ""
      && (Trim(payload.userMessage) != "" || Trim(payload.assistantMessage) != "")
      && payload.userMessage != "" && payload.assistantMessage != ""
    ensures result.Ok? ==>
      var days := if planRetentionDays.Some? then planRetentionDays.value else defaultRetentionDays;
      var expiresAt := if days == -1 then None else Some(archivedAt + days * 86_400_000);
      var n := if payload.conversationId in old(repository.conversations)
               then old(repository.conversations)[payload.conversationId].messageCount else 0;
      && payload.conversationId in repository.conversations
      && repository.conversations[payload.conversationId].messageCount == n + 2
      && repository.messages == old(repository.messages) +
           [ChatMessage(payload.conversationId, n, User, payload.userMessage, [], expiresAt),
            ChatMessage(payload.conversationId, n + 1, Assistant, payload.assistantMessage, payload.cards, expiresAt)]
    ensures old(repository.Valid()) ==> repository.Valid()
  {
    if !payload.storeIdValid || IsBlank(payload.conversationId) {
      return Err(InvalidPayload);
    }
    if IsBlank(payload.userMessage) && IsBlank(payload.assistantMessage) {
      return Err(InvalidPayload);
    }
    var retentionDays := planRetentionDays.GetOr(defaultRetentionDays);
    var expiresAt := if retentionDays == -1 then None else Some(archivedAt + retentionDays * MILLIS_PER_DAY);
    result := repository.ArchiveTurn(payload, archivedAt, expiresAt);
  }
}
