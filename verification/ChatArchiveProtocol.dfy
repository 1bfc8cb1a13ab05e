/** Concurrent archive transactions over many conversations.

    Reserving a sequence range updates the conversation document, so a second transaction that touches it before the
    first ends gets a write conflict and aborts; the driver may begin it again.  Nothing is visible before commit. */
module ChatArchiveProtocol {
  import opened Options
  import opened ChatArchive

  datatype Phase =
    | Begun
    | Reserved(messageCount: nat)
    | Inserted(pending: seq<ChatMessage>, messageCount: nat)
    | Committed
    | Aborted

  datatype Transaction = Transaction(payload: Payload, expiresAt: Option<int>, phase: Phase)

  datatype State = State(
    counts: map<string, nat>,         // committed message counts
    messages: seq<ChatMessage>,       // committed messages
    transactions: seq<Transaction>,
    log: seq<Transaction>)            // committed transactions, in commit order

  datatype Step =
    | Begin(payload: Payload, expiresAt: Option<int>)
    | Reserve(t: nat)
    | Insert(t: nat)
    | Commit(t: nat)
    | Abort(t: nat)

  predicate Locking(transaction: Transaction) {
    transaction.phase.Reserved? || transaction.phase.Inserted?
  }

  predicate Locked(transactions: seq<Transaction>, conversation: string) {
    exists u :: 0 <= u < |transactions| && Locking(transactions[u])
                && transactions[u].payload.conversationId == conversation
  }

  predicate Open(transaction: Transaction) {
    transaction.phase.Begun? || transaction.phase.Reserved? || transaction.phase.Inserted?
  }

  predicate Enabled(s: State, step: Step) {
    match step
    case Begin(_, _) => true
    case Reserve(t) => t < |s.transactions| && s.transactions[t].phase.Begun?
    case Insert(t) => t < |s.transactions| && s.transactions[t].phase.Reserved?
    case Commit(t) => t < |s.transactions| && s.transactions[t].phase.Inserted?
    case Abort(t) => t < |s.transactions| && Open(s.transactions[t])
  }

  function CountOf(s: State, conversation: string): nat {
    if conversation in s.counts then s.counts[conversation] else 0
  }

  function Set(s: State, t: nat, phase: Phase): State
    requires t < |s.transactions|
  {
    s.(transactions := s.transactions[t := s.transactions[t].(phase := phase)])
  }

  function Next(s: State, step: Step): State
    requires Enabled(s, step)
  {
    match step
    case Begin(payload, expiresAt) =>
      s.(transactions := s.transactions + [Transaction(payload, expiresAt, Begun)])
    case Reserve(t) =>
      var conversation := s.transactions[t].payload.conversationId;
      if Locked(s.transactions, conversation) then Set(s, t, Aborted)
      else Set(s, t, Reserved(CountOf(s, conversation) + PERSISTED_MESSAGES_PER_TURN))
    case Insert(t) =>
      var transaction := s.transactions[t];
      if Storable(transaction.payload)
      then
        var messageCount := transaction.phase.messageCount;
        Set(s, t, Inserted(Pair(transaction.payload, messageCount, transaction.expiresAt), messageCount))
      else Set(s, t, Aborted)
    case Commit(t) =>
      var transaction := s.transactions[t];
      var committed := transaction.(phase := Committed);
      Set(s, t, Committed).(
        counts := s.counts[transaction.payload.conversationId := transaction.phase.messageCount],
        messages := s.messages + transaction.phase.pending,
        log := s.log + [committed])
    case Abort(t) => Set(s, t, Aborted)
  }

  datatype Run = Start | Then(past: Run, step: Step)

  predicate IsRun(run: Run)
    decreases run, 0
  {
    run.Then? ==> IsRun(run.past) && Enabled(After(run.past), run.step)
  }

  function After(run: Run): State
    requires IsRun(run)
    decreases run, 1
  {
    match run
    case Start => State(map[], [], [], [])
    case Then(past, step) => Next(After(past), step)
  }

  // ---- The archive as its commit log says it should be ----

  /** A conversation's turns, in commit order. */
  function TurnsOf(log: seq<Transaction>, conversation: string): seq<Transaction> {
    if log == [] then []
    else
      var front, last := TurnsOf(log[..|log| - 1], conversation), log[|log| - 1];
      if last.payload.conversationId == conversation then front + [last] else front
  }

  /** Those turns archived one after the other. */
  function Pairs(turns: seq<Transaction>): seq<ChatMessage> {
    if turns == [] then []
    else
      var last := turns[|turns| - 1];
      Pairs(turns[..|turns| - 1]) + Pair(last.payload, PERSISTED_MESSAGES_PER_TURN * |turns|, last.expiresAt)
  }

  // ---- The invariant ----

  ghost predicate OneLockEach(s: State) {
    forall t: nat, u: nat ::
      t < |s.transactions| && u < |s.transactions| && t != u
      && Locking(s.transactions[t]) && Locking(s.transactions[u]) ==>
        s.transactions[t].payload.conversationId != s.transactions[u].payload.conversationId
  }

  /** A transaction's reserved range ends right after the committed messages of its conversation. */
  ghost predicate RangeCurrent(s: State, transaction: Transaction) {
    var count := CountOf(s, transaction.payload.conversationId) + PERSISTED_MESSAGES_PER_TURN;
    && (transaction.phase.Reserved? ==> transaction.phase.messageCount == count)
    && (transaction.phase.Inserted? ==>
          && transaction.phase.messageCount == count
          && transaction.phase.pending == Pair(transaction.payload, count, transaction.expiresAt))
  }

  ghost predicate RangesCurrent(s: State) {
    forall t: nat :: t < |s.transactions| ==> RangeCurrent(s, s.transactions[t])
  }

  /** The committed state is the commit log archived serially. */
  ghost predicate Serial(s: State) {
    forall c: string ::
      && CountOf(s, c) == PERSISTED_MESSAGES_PER_TURN * |TurnsOf(s.log, c)|
      && MessagesOf(s.messages, c) == Pairs(TurnsOf(s.log, c))
  }

  ghost predicate Inv(s: State) {
    OneLockEach(s) && RangesCurrent(s) && Serial(s)
  }

  lemma CommitKeepsSerial(s: State, t: nat)
    requires Inv(s) && Enabled(s, Commit(t))
    ensures Serial(Next(s, Commit(t)))
  {
    var s', transaction := Next(s, Commit(t)), s.transactions[t];
    var conversation := transaction.payload.conversationId;
    forall c: string
      ensures CountOf(s', c) == PERSISTED_MESSAGES_PER_TURN * |TurnsOf(s'.log, c)|
      ensures MessagesOf(s'.messages, c) == Pairs(TurnsOf(s'.log, c))
    {
      assert s'.log[..|s.log|] == s.log;
      var before, after := TurnsOf(s.log, c), TurnsOf(s'.log, c);
      MessagesOfAppendPair(s.messages, transaction.phase.pending, conversation, c);
      if c == conversation {
        assert after[..|before|] == before;
      }
    }
  }

  lemma StepKeepsLocks(s: State, step: Step)
    requires Inv(s) && Enabled(s, step)
    ensures OneLockEach(Next(s, step))
  {
    var s' := Next(s, step);
    assert forall u: nat :: u < |s.transactions| ==> s'.transactions[u].payload == s.transactions[u].payload;
    if step.Reserve? && s'.transactions[step.t].phase.Reserved? {
      assert forall u: nat :: u < |s.transactions| && Locking(s.transactions[u]) ==>
        s.transactions[u].payload.conversationId != s.transactions[step.t].payload.conversationId;
    } else if !step.Begin? {
      assert forall u: nat :: u < |s.transactions| && Locking(s'.transactions[u]) ==> Locking(s.transactions[u]);
    }
  }

  lemma StepKeepsRanges(s: State, step: Step)
    requires OneLockEach(s) && RangesCurrent(s) && Enabled(s, step)
    ensures RangesCurrent(Next(s, step))
  {
    var s' := Next(s, step);
    forall u: nat | u < |s'.transactions|
      ensures RangeCurrent(s', s'.transactions[u])
    {
      if u < |s.transactions| {
        assert RangeCurrent(s, s.transactions[u]);
        if step.Commit? && u != step.t && Locking(s.transactions[u]) {
          assert CountOf(s', s.transactions[u].payload.conversationId)
              == CountOf(s, s.transactions[u].payload.conversationId);
        }
      }
    }
  }

  lemma StepKeepsInv(s: State, step: Step)
    requires Inv(s) && Enabled(s, step)
    ensures Inv(Next(s, step))
  {
    StepKeepsLocks(s, step);
    StepKeepsRanges(s, step);
    if step.Commit? {
      CommitKeepsSerial(s, step.t);
    } else {
      var s' := Next(s, step);
      assert s'.messages == s.messages && s'.log == s.log && s'.counts == s.counts;
      assert forall c: string :: CountOf(s', c) == CountOf(s, c);
    }
  }

  lemma {:induction false} RunKeepsInv(run: Run)
    requires IsRun(run)
    ensures Inv(After(run))
  {
    if run.Then? {
      RunKeepsInv(run.past);
      StepKeepsInv(After(run.past), run.step);
    }
  }

  // ---- The results ----

  lemma {:induction false} PairsLength(turns: seq<Transaction>)
    ensures |Pairs(turns)| == PERSISTED_MESSAGES_PER_TURN * |turns|
  {
    if turns != [] {
      PairsLength(turns[..|turns| - 1]);
    }
  }

  lemma {:induction false} PairAt(turns: seq<Transaction>, k: nat)
    requires k < |turns| && |Pairs(turns)| == PERSISTED_MESSAGES_PER_TURN * |turns|
    ensures Pairs(turns)[2 * k] == Pair(turns[k].payload, 2 * k + 2, turns[k].expiresAt)[0]
    ensures Pairs(turns)[2 * k + 1] == Pair(turns[k].payload, 2 * k + 2, turns[k].expiresAt)[1]
  {
    var n := |turns| - 1;
    PairsLength(turns[..n]);
    if k < n {
      PairAt(turns[..n], k);
    }
  }

  /** Numbered from 0 without a gap; the even ones the user's, the odd ones the assistant's with its cards; pair `k` is
      turn `k`. */
  ghost predicate NumberedInPairs(stored: seq<ChatMessage>, turns: seq<Transaction>) {
    && |stored| == 2 * |turns|
    && forall k :: 0 <= k < |turns| ==>
      && stored[2 * k].sequence == 2 * k && stored[2 * k].role == User
      && stored[2 * k].content == turns[k].payload.userMessage && stored[2 * k].cards == []
      && stored[2 * k].expiresAt == stored[2 * k + 1].expiresAt == turns[k].expiresAt
      && stored[2 * k + 1].sequence == 2 * k + 1 && stored[2 * k + 1].role == Assistant
      && stored[2 * k + 1].content == turns[k].payload.assistantMessage
      && stored[2 * k + 1].cards == turns[k].payload.cards
  }

  lemma PairsAreNumbered(turns: seq<Transaction>)
    ensures NumberedInPairs(Pairs(turns), turns)
  {
    PairsLength(turns);
    forall k | 0 <= k < |turns|
      ensures Pairs(turns)[2 * k] == Pair(turns[k].payload, 2 * k + 2, turns[k].expiresAt)[0]
      ensures Pairs(turns)[2 * k + 1] == Pair(turns[k].payload, 2 * k + 2, turns[k].expiresAt)[1]
    {
      PairAt(turns, k);
    }
  }

  /** Whatever the interleaving, a conversation's stored sequence numbers are 0 up to its message count, in order; the
      even ones are the user's and the odd ones the assistant's; and pair `k` is the conversation's k-th committed
      turn. */
  lemma SequencesAreGapless(run: Run, conversation: string)
    requires IsRun(run)
    ensures NumberedInPairs(MessagesOf(After(run).messages, conversation), TurnsOf(After(run).log, conversation))
    ensures |MessagesOf(After(run).messages, conversation)| == CountOf(After(run), conversation)
  {
    RunKeepsInv(run);
    PairsAreNumbered(TurnsOf(After(run).log, conversation));
  }

  // ---- The repository's method is this transaction ----

  /** The protocol's counts are the repository's headers. */
  ghost predicate Agrees(s: State, conversations: map<string, Conversation>) {
    forall c: string :: CountOf(s, c) == if c in conversations then conversations[c].messageCount else 0
  }

  /** The steps of one archive transaction, in a row. */
  function TransactionSteps(t: nat, payload: Payload, expiresAt: Option<int>): seq<Step> {
    [Begin(payload, expiresAt), Reserve(t), Insert(t), Commit(t)]
  }

  predicate Leads(s: State, steps: seq<Step>, s': State)
    decreases |steps|
  {
    if steps == [] then s == s' else Enabled(s, steps[0]) && Leads(Next(s, steps[0]), steps[1..], s')
  }

  /** Begin, reserve, insert and commit in a row, from a state with the repository's counts, leave the messages and
      counts that `ArchiveTurn` leaves. */
  lemma ArchiveTurnRefines(
    s: State, conversations: map<string, Conversation>, payload: Payload, archivedAt: int, expiresAt: Option<int>)
    returns (s': State)
    requires Agrees(s, conversations) && Storable(payload)
    requires !Locked(s.transactions, payload.conversationId)
    ensures Leads(s, TransactionSteps(|s.transactions|, payload, expiresAt), s')
    ensures var header :=
        HeaderAfter(Headed(conversations, payload.conversationId), payload.userMessage, archivedAt, expiresAt);
      && s'.messages == s.messages + Pair(payload, header.messageCount, expiresAt)
      && Agrees(s', conversations[payload.conversationId := header])
  {
    var t, count := |s.transactions|, CountOf(s, payload.conversationId);
    var begun := Next(s, Begin(payload, expiresAt));
    assert !Locked(begun.transactions, payload.conversationId);
    var reserved := Next(begun, Reserve(t));
    assert reserved.transactions[t].phase == Reserved(count + 2);
    var inserted := Next(reserved, Insert(t));
    s' := Next(inserted, Commit(t));
    LeadsFour(s, Begin(payload, expiresAt), Reserve(t), Insert(t), Commit(t));
  }

  lemma LeadsFour(s: State, a: Step, b: Step, c: Step, d: Step)
    requires Enabled(s, a) && Enabled(Next(s, a), b) && Enabled(Next(Next(s, a), b), c)
    requires Enabled(Next(Next(Next(s, a), b), c), d)
    ensures Leads(s, [a, b, c, d], Next(Next(Next(Next(s, a), b), c), d))
  {
    var end := Next(Next(Next(Next(s, a), b), c), d);
    assert Leads(Next(Next(Next(s, a), b), c), [d], end);
    assert [c, d][1..] == [d] && [b, c, d][1..] == [c, d] && [a, b, c, d][1..] == [b, c, d];
    assert Leads(Next(Next(s, a), b), [c, d], end);
    assert Leads(Next(s, a), [b, c, d], end);
  }
}
