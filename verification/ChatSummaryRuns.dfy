/** Summarise jobs against a growing session, overlapping in any way: appends and other jobs come between a job's read
    of the cursor and its write.  Jobs may be duplicated, delayed, reordered and retried. */
module ChatSummaryRuns {
  import opened ChatMessages
  import Store = ConversationStore

  datatype Job = Job(from: nat, total: nat, batch: seq<LlmMessage>)

  datatype State = State(
    turns: seq<Turn>,
    counts: set<nat>,                  // lengths that appends returned
    cursor: nat,
    jobs: seq<Job>,                    // read, not yet written
    batches: seq<seq<LlmMessage>>)     // of successful summarise calls, in order

  datatype Step =
    | Append(turn: Turn)
    | Begin(total: nat)
    | Finish(j: nat)
    | Fail(j: nat)

  function Without(jobs: seq<Job>, j: nat): seq<Job>
    requires j < |jobs|
  {
    jobs[..j] + jobs[j + 1..]
  }

  ghost predicate Enabled(s: State, step: Step) {
    match step
    case Append(turn) => ValidTurn(turn)
    case Begin(total) => total in s.counts
    case Finish(j) => j < |s.jobs|
    case Fail(j) => j < |s.jobs|
  }

  function Batch(s: State, total: nat): seq<LlmMessage> {
    Store.ListRange(Flatten(s.turns), s.cursor, total - 1)
  }

  function Next(s: State, step: Step): State
    requires Enabled(s, step)
  {
    match step
    case Append(turn) =>
      var turns := s.turns + [turn];
      s.(turns := turns, counts := s.counts + {|Flatten(turns)|})
    case Begin(total) =>
      if total <= s.cursor || Batch(s, total) == [] then s
      else s.(jobs := s.jobs + [Job(s.cursor, total, Batch(s, total))])
    case Finish(j) =>
      var job := s.jobs[j];
      s.(cursor := job.total, batches := s.batches + [job.batch], jobs := Without(s.jobs, j))
    case Fail(j) => s.(jobs := Without(s.jobs, j))
  }

  datatype Run = Start | Then(past: Run, step: Step)

  ghost predicate IsRun(run: Run)
    decreases run, 0
  {
    run.Then? ==> IsRun(run.past) && Enabled(After(run.past), run.step)
  }

  ghost function After(run: Run): State
    requires IsRun(run)
    decreases run, 1
  {
    match run
    case Start => State([], {}, 0, [], [])
    case Then(past, step) => Next(After(past), step)
  }

  function Concat(batches: seq<seq<LlmMessage>>): seq<LlmMessage> {
    if batches == [] then [] else Concat(batches[..|batches| - 1]) + batches[|batches| - 1]
  }

  // ---- What every run keeps ----

  /** The job read what lay between the cursor of that moment and its total. */
  ghost predicate ReadTruly(turns: seq<Turn>, job: Job) {
    && job.from < job.total <= |Flatten(turns)|
    && IsBoundary(turns, job.total)
    && job.batch == Flatten(turns)[job.from..job.total]
  }

  ghost predicate AllReadTruly(turns: seq<Turn>, jobs: seq<Job>) {
    forall j :: 0 <= j < |jobs| ==> ReadTruly(turns, jobs[j])
  }

  ghost predicate Inv(s: State) {
    && ValidTurns(s.turns)
    && IsBoundary(s.turns, s.cursor) && s.cursor <= |Flatten(s.turns)|
    && (forall count :: count in s.counts ==> IsBoundary(s.turns, count))
    && AllReadTruly(s.turns, s.jobs)
  }

  lemma BoundaryInside(turns: seq<Turn>, position: nat, session: seq<LlmMessage>)
    requires ValidTurns(turns) && IsBoundary(turns, position) && session == Flatten(turns)
    ensures position <= |session|
  {
    var i := BoundarySuffix(turns, position);
  }

  lemma RangeIsSlice(list: seq<LlmMessage>, from: nat, to: nat)
    requires from < to <= |list|
    ensures Store.ListRange(list, from, to - 1) == list[from..to] != []
  {
  }

  lemma SlicesKept(before: seq<LlmMessage>, more: seq<LlmMessage>, i: nat, j: nat)
    requires i <= j <= |before|
    ensures (before + more)[i..j] == before[i..j] && (before + more)[..j] == before[..j]
  {
  }

  lemma BoundariesKept(turns: seq<Turn>, turn: Turn)
    ensures forall position: int :: IsBoundary(turns, position) ==> IsBoundary(turns + [turn], position)
    ensures IsBoundary(turns + [turn], |Flatten(turns + [turn])|)
  {
    forall position: int | IsBoundary(turns, position)
      ensures IsBoundary(turns + [turn], position)
    {
      BoundaryKept(turns, turn, position);
    }
    EndsAreBoundaries(turns + [turn]);
  }

  lemma AppendKeepsInv(s: State, turn: Turn)
    requires Inv(s) && ValidTurn(turn)
    ensures Inv(Next(s, Append(turn)))
  {
    var before, more := Flatten(s.turns), TurnMessages(turn);
    var s' := Next(s, Append(turn));
    FlattenAppend(s.turns, turn);
    BoundariesKept(s.turns, turn);
    forall j | 0 <= j < |s.jobs|
      ensures ReadTruly(s'.turns, s.jobs[j])
    {
      assert ReadTruly(s.turns, s.jobs[j]);
      SlicesKept(before, more, s.jobs[j].from, s.jobs[j].total);
    }
  }

  lemma BeginKeepsInv(s: State, total: nat)
    requires Inv(s) && total in s.counts
    ensures Inv(Next(s, Begin(total)))
  {
    if total > s.cursor {
      BoundaryInside(s.turns, total, Flatten(s.turns));
      RangeIsSlice(Flatten(s.turns), s.cursor, total);
    }
  }

  lemma OthersReadTruly(turns: seq<Turn>, jobs: seq<Job>, j: nat)
    requires AllReadTruly(turns, jobs) && j < |jobs|
    ensures AllReadTruly(turns, Without(jobs, j))
  {
  }

  lemma EndKeepsInv(s: State, step: Step)
    requires Inv(s) && Enabled(s, step) && (step.Finish? || step.Fail?)
    ensures Inv(Next(s, step))
  {
    OthersReadTruly(s.turns, s.jobs, step.j);
    assert ReadTruly(s.turns, s.jobs[step.j]);
  }

  lemma {:induction false} RunKeepsInv(run: Run)
    requires IsRun(run)
    ensures Inv(After(run))
  {
    match run {
      case Start => EndsAreBoundaries([]);
      case Then(past, step) =>
        RunKeepsInv(past);
        match step {
          case Append(turn) => AppendKeepsInv(After(past), turn);
          case Begin(total) => BeginKeepsInv(After(past), total);
          case _ => EndKeepsInv(After(past), step);
        }
    }
  }

  // ---- Exactly once ----

  /** The batches that were summarised are exactly the messages below the cursor, each once and in order. */
  ghost predicate Exact(s: State) {
    s.cursor <= |Flatten(s.turns)| && Concat(s.batches) == Flatten(s.turns)[..s.cursor]
  }

  /** A job that writes finds the cursor it read: a compare-and-set on the cursor. */
  ghost predicate Guarded(s: State, step: Step) {
    step.Finish? && step.j < |s.jobs| ==> s.jobs[step.j].from == s.cursor
  }

  ghost predicate GuardedRun(run: Run)
    requires IsRun(run)
  {
    run.Then? ==> GuardedRun(run.past) && Guarded(After(run.past), run.step)
  }

  ghost predicate ExactRun(run: Run)
    requires IsRun(run)
  {
    Exact(After(run)) && (run.Then? ==> ExactRun(run.past))
  }

  lemma SlicesMeet(session: seq<LlmMessage>, cursor: nat, from: nat, total: nat)
    requires cursor <= |session| && from < total <= |session|
    ensures session[..cursor] + session[from..total] == session[..total] <==> from == cursor
  {
    assert |session[..cursor] + session[from..total]| == cursor + (total - from);
  }

  /** A step from an exact state keeps it exact exactly when it meets the guard. */
  lemma StepIsExactlyGuarded(s: State, step: Step)
    requires Inv(s) && Exact(s) && Enabled(s, step)
    ensures Exact(Next(s, step)) <==> Guarded(s, step)
  {
    match step {
      case Append(turn) =>
        FlattenAppend(s.turns, turn);
        SlicesKept(Flatten(s.turns), TurnMessages(turn), 0, s.cursor);
      case Finish(j) =>
        assert ReadTruly(s.turns, s.jobs[j]);
        assert Next(s, step).batches[..|s.batches|] == s.batches;
        SlicesMeet(Flatten(s.turns), s.cursor, s.jobs[j].from, s.jobs[j].total);
      case _ =>
    }
  }

  /** Over whole runs, with jobs overlapping in any way: each message below the cursor was summarised once and in order,
      at every moment, exactly when every write met the guard. */
  lemma {:induction false} RunIsExactlyGuarded(run: Run)
    requires IsRun(run)
    ensures ExactRun(run) <==> GuardedRun(run)
  {
    if run.Then? {
      RunIsExactlyGuarded(run.past);
      RunKeepsInv(run.past);
      if ExactRun(run.past) {
        StepIsExactlyGuarded(After(run.past), run.step);
      }
    }
  }

  predicate Extends(later: Run, earlier: Run) {
    later == earlier || (later.Then? && Extends(later.past, earlier))
  }

  /** In guarded runs the cursor never goes back. */
  lemma {:induction false} GuardedCursorNeverDecreases(earlier: Run, later: Run)
    requires IsRun(later) && GuardedRun(later) && IsRun(earlier) && Extends(later, earlier)
    ensures After(earlier).cursor <= After(later).cursor
  {
    if later != earlier {
      GuardedCursorNeverDecreases(earlier, later.past);
      RunKeepsInv(later.past);
      var s, step := After(later.past), later.step;
      assert step.Finish? ==> ReadTruly(s.turns, s.jobs[step.j]);
    }
  }

  // ---- Requests ----

  lemma {:induction false} CountsOnlyGrow(earlier: Run, later: Run)
    requires IsRun(earlier) && IsRun(later) && Extends(later, earlier)
    ensures After(earlier).counts <= After(later).counts
  {
    if later != earlier {
      CountsOnlyGrow(earlier, later.past);
    }
  }

  /** What a job for a count that an append returned reads: what lies between the cursor and that count. */
  lemma BeginReads(s: State, total: nat)
    requires Inv(s) && total in s.counts
    ensures total <= |Flatten(s.turns)|
    ensures s.cursor < total ==>
      Next(s, Begin(total)).jobs == s.jobs + [Job(s.cursor, total, Flatten(s.turns)[s.cursor..total])]
    ensures s.cursor >= total ==> Next(s, Begin(total)).jobs == s.jobs
  {
    BoundaryInside(s.turns, total, Flatten(s.turns));
    if s.cursor < total {
      RangeIsSlice(Flatten(s.turns), s.cursor, total);
    }
  }

  /** The length that an append of a turn returned can be asked for at any later time: the job begins whenever the
      request is delivered. */
  lemma RequestedCountCanBegin(run: Run, turn: Turn, later: Run)
    requires IsRun(run) && ValidTurn(turn) && IsRun(later) && Extends(later, Then(run, Append(turn)))
    ensures IsRun(Then(later, Begin(|Flatten(After(run).turns + [turn])|)))
    ensures |Flatten(After(run).turns + [turn])| in After(later).counts
  {
    assert IsRun(Then(run, Append(turn)));
    CountsOnlyGrow(Then(run, Append(turn)), later);
  }

  // ---- One job at a time ----

  /** None begins while another has still to write. */
  ghost predicate Serial(run: Run)
    requires IsRun(run)
  {
    run.Then? ==> Serial(run.past) && (run.step.Begin? ==> After(run.past).jobs == [])
  }

  /** One job at a time is enough to meet the guard. */
  lemma {:induction false} SerialRunsAreGuarded(run: Run)
    requires IsRun(run) && Serial(run)
    ensures GuardedRun(run)
    ensures var s := After(run); |s.jobs| <= 1 && (s.jobs != [] ==> s.jobs[0].from == s.cursor)
  {
    if run.Then? {
      SerialRunsAreGuarded(run.past);
    }
  }

  /** The cursor is a turn boundary inside the session, and the batches that were summarised are exactly the messages
      below it, each once and in order. */
  lemma SummarisedExactlyBelowCursor(run: Run)
    requires IsRun(run) && Serial(run)
    ensures IsBoundary(After(run).turns, After(run).cursor) && Exact(After(run))
  {
    SerialRunsAreGuarded(run);
    RunIsExactlyGuarded(run);
    RunKeepsInv(run);
  }

  /** The cursor never goes back. */
  lemma CursorNeverDecreases(earlier: Run, later: Run)
    requires IsRun(later) && Serial(later) && IsRun(earlier) && Extends(later, earlier)
    ensures After(earlier).cursor <= After(later).cursor
  {
    SerialRunsAreGuarded(later);
    GuardedCursorNeverDecreases(earlier, later);
  }

  // ---- Without one job at a time ----

  lemma Take(run: Run, s: State, step: Step) returns (longer: Run, s': State)
    requires IsRun(run) && After(run) == s && Enabled(s, step)
    ensures IsRun(longer) && s' == Next(s, step) && After(longer) == s'
    ensures longer == Then(run, step)
  {
    longer, s' := Then(run, step), Next(s, step);
  }

  lemma FlattenTwice(turn: Turn)
    ensures |Flatten([turn])| == |TurnMessages(turn)| && |Flatten([turn, turn])| == 2 * |TurnMessages(turn)|
  {
    FlattenAppend([], turn);
    FlattenAppend([turn], turn);
    assert [] + [turn] == [turn] && [turn] + [turn] == [turn, turn];
  }

  lemma TwoTurnsAppended(turn: Turn) returns (run: Run)
    requires ValidTurn(turn) && |TurnMessages(turn)| == 2
    ensures IsRun(run) && After(run) == State([turn, turn], {2, 4}, 0, [], [])
  {
    FlattenTwice(turn);
    var s := State([], {}, 0, [], []);
    run := Start;
    run, s := Take(run, s, Append(turn));
    assert s.turns == [turn];
    run, s := Take(run, s, Append(turn));
    assert s.turns == [turn, turn];
  }

  /** Two turns were appended, and the job for each has read the cursor at zero. */
  lemma TwoJobsReadTheCursor() returns (run: Run)
    ensures IsRun(run)
    ensures var s := After(run);
      |s.jobs| == 2 && s.jobs[0].total == 2 && s.jobs[1].total == 4
  {
    var turn := Turn(UserMessage("question"), [], AssistantMessage("answer"));
    FlattenTwice(turn);
    run := TwoTurnsAppended(turn);
    var s := After(run);
    run, s := Take(run, s, Begin(2));
    run, s := Take(run, s, Begin(4));
  }

  /** Two jobs read the same cursor; the shorter one writes last, and the cursor goes back. */
  lemma OverlappingJobsMoveTheCursorBack() returns (earlier: Run, later: Run)
    ensures IsRun(earlier) && IsRun(later) && Extends(later, earlier)
    ensures After(earlier).cursor > After(later).cursor
  {
    var run := TwoJobsReadTheCursor();
    var s := After(run);
    run, s := Take(run, s, Finish(1));
    earlier := run;
    run, s := Take(run, s, Finish(0));
    later := run;
  }
}
