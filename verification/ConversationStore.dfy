/** One conversation in the cache: its message list, its summary, and how far the summary reaches.

    `turns` is the ghost reading of the list; the store itself knows messages only. */
module ConversationStore {
  import opened Options
  import opened ChatMessages

  /** The list slice both ends included; negative positions count from the end. */
  function ListRange(list: seq<LlmMessage>, start: nat, stop: int): seq<LlmMessage> {
    var last := if stop < 0 then |list| + stop else if stop < |list| then stop else |list| - 1;
    if start > last then [] else list[start..last + 1]
  }

  /** Redis's slice: from `start` to `stop` with both included, as far as the list goes; -1 is the last element. */
  lemma RangeMeans(list: seq<LlmMessage>, start: nat, stop: int)
    requires stop >= -1
    ensures stop == -1 || stop >= |list| ==>
      ListRange(list, start, stop) == if start <= |list| then list[start..] else []
    ensures 0 <= stop < |list| ==>
      ListRange(list, start, stop) == if start <= stop then list[start..stop + 1] else []
  {
  }

  class ConversationStore {
    var session: seq<LlmMessage>
    var summary: Option<string>
    var lastSummarizedCount: nat
    ghost var turns: seq<Turn>

    ghost predicate Valid()
      reads this
    {
      ValidTurns(turns) && session == Flatten(turns) && IsBoundary(turns, lastSummarizedCount)
    }

    constructor ()
      ensures Valid() && session == [] && turns == [] && summary == None && lastSummarizedCount == 0
    {
      session, summary, lastSummarizedCount, turns := [], None, 0, [];
      new;
      EndsAreBoundaries([]);
    }

    method GetHistory(start: nat, stop: int) returns (messages: seq<LlmMessage>)
      ensures messages == ListRange(session, start, stop)
      ensures start == 0 && stop == -1 ==> messages == session
    {
      var last := if stop < 0 then |session| + stop else if stop < |session| then stop else |session| - 1;
      messages := if start > last then [] else session[start..last + 1];
    }

    /** One atomic push; it answers the new length.  Pushing a whole turn keeps the session whole turns. */
    method AppendMessages(newMessages: seq<LlmMessage>, ghost turn: Turn) returns (length: nat)
      modifies this`session, this`turns
      ensures session == old(session) + newMessages && length == |session|
      ensures turns == old(turns) + [turn]
      ensures old(Valid()) && ValidTurn(turn) && newMessages == TurnMessages(turn) ==> Valid()
    {
      FlattenAppend(turns, turn);
      if IsBoundary(turns, lastSummarizedCount) {
        BoundaryKept(turns, turn, lastSummarizedCount);
      }
      session := session + newMessages;
      turns := turns + [turn];
      length := |session|;
    }

    method SetSummary(summary: string)
      modifies this`summary
      ensures this.summary == Some(summary)
    {
      this.summary := Some(summary);
    }

    method SetLastSummarizedCount(count: nat)
      modifies this`lastSummarizedCount
      ensures lastSummarizedCount == count
      ensures old(Valid()) && IsBoundary(turns, count) ==> Valid()
    {
      lastSummarizedCount := count;
    }
  }
}
