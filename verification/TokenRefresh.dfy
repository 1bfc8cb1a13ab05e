/** N processes refreshing one integration's OAuth tokens under a lock with a time to live.

    The stored document carries a token generation: the server's n-th access and refresh token pair.  Refresh tokens
    rotate (section 6 of RFC 6749): exchanging the refresh token of a generation uses it up and issues the next.
    Each cache, database or provider call is one step.  Times are milliseconds. */
module TokenRefresh {
  import opened Options

  const TOKEN_LOCK_TTL_MS := 30 * 1000
  const POLL_INTERVAL_MS := 200

  datatype Tokens = Tokens(generation: nat, expiresAt: int)

  datatype Outcome = Token(generation: nat) | RefreshFailed | LimitExceeded | Crashed

  datatype Process =
    | Idle
    | Acquiring                                              // first setIfNotExists
    | Sleeping(since: int, polls: nat, wakeAt: int)          // in the polling loop
    | CheckingLock(since: int, polls: nat)                   // polled a token still expiring: read the lock's ttl
    | Reloading                                              // after the loop
    | Reacquiring                                            // second setIfNotExists
    | Rechecking(acquiredAt: int)                            // lock acquired: performRefresh reloads
    | Presenting(acquiredAt: int, generation: nat)           // about to send this generation's refresh token
    | Storing(acquiredAt: int, tokens: Tokens)                // exchanged: about to store the new tokens
    | Leaving(acquiredAt: int, outcome: Outcome)             // about to delete the lock
    | Done(outcome: Outcome)

  datatype State = State(
    clock: int,
    window: int,                 // the refresh window, in milliseconds
    lock: Option<int>,           // when the lock key expires
    stored: Tokens,
    issued: nat,                 // generations issued so far
    exchanged: seq<nat>,         // generations whose refresh token the server has exchanged, in order
    processes: seq<Process>)

  datatype Step =
    | Tick(now: int)
    | Call(p: nat, snapshot: Tokens)          // getValidAccessToken with a document read earlier
    | Acquire(p: nat, cacheUp: bool)
    | Poll(p: nat)
    | CheckLock(p: nat, cacheUp: bool)
    | Reload(p: nat)
    | Reacquire(p: nat, cacheUp: bool)
    | Recheck(p: nat)
    | Present(p: nat, accepted: bool, expiresIn: nat)
    | Store(p: nat)
    | Release(p: nat, cacheUp: bool)
    | Crash(p: nat)

  predicate ExpiringSoon(s: State, tokens: Tokens) {
    tokens.expiresAt <= s.clock + s.window
  }

  predicate LockHeld(s: State) {
    s.lock.Some? && s.clock < s.lock.value
  }

  function Set(s: State, p: nat, process: Process): State
    requires p < |s.processes|
  {
    s.(processes := s.processes[p := process])
  }

  /** Between acquiring the lock and releasing it. */
  predicate Critical(process: Process) {
    process.Rechecking? || process.Presenting? || process.Storing? || process.Leaving?
  }

  /** Inside `performRefresh`. */
  predicate Refreshing(process: Process) {
    process.Rechecking? || process.Presenting? || process.Storing?
  }

  predicate Enabled(s: State, step: Step) {
    match step
    case Tick(now) => s.clock <= now
    case Call(p, _) => p < |s.processes| && (s.processes[p].Idle? || s.processes[p].Done?)
    case Acquire(p, _) => p < |s.processes| && s.processes[p].Acquiring?
    case Poll(p) => p < |s.processes| && s.processes[p].Sleeping? && s.processes[p].wakeAt <= s.clock
    case CheckLock(p, _) => p < |s.processes| && s.processes[p].CheckingLock?
    case Reload(p) => p < |s.processes| && s.processes[p].Reloading?
    case Reacquire(p, _) => p < |s.processes| && s.processes[p].Reacquiring?
    case Recheck(p) => p < |s.processes| && s.processes[p].Rechecking?
    case Present(p, _, _) => p < |s.processes| && s.processes[p].Presenting?
    case Store(p) => p < |s.processes| && s.processes[p].Storing?
    case Release(p, _) => p < |s.processes| && s.processes[p].Leaving?
    // `updateTokens` succeeds: no crash between the exchange and the store.
    case Crash(p) => p < |s.processes| && !s.processes[p].Idle? && !s.processes[p].Done? && !s.processes[p].Storing?
  }

  /** `SET key value EX ttl NX`; a cache error is answered like a taken lock. */
  function TryLock(s: State, p: nat, cacheUp: bool, otherwise: Process): State
    requires p < |s.processes|
  {
    if cacheUp && !LockHeld(s)
    then Set(s, p, Rechecking(s.clock)).(lock := Some(s.clock + TOKEN_LOCK_TTL_MS))
    else Set(s, p, otherwise)
  }

  /** The head of the polling loop: sleep once more while the deadline is ahead. */
  function LoopHead(s: State, since: int, polls: nat): Process {
    if s.clock < since + TOKEN_LOCK_TTL_MS then Sleeping(since, polls, s.clock + POLL_INTERVAL_MS) else Reloading
  }

  function Next(s: State, step: Step): State
    requires Enabled(s, step)
  {
    match step
    case Tick(now) => s.(clock := now)
    case Call(p, snapshot) =>
      Set(s, p, if ExpiringSoon(s, snapshot) then Acquiring else Done(Token(snapshot.generation)))
    case Acquire(p, cacheUp) => TryLock(s, p, cacheUp, LoopHead(s, s.clock, 0))
    case Poll(p) =>
      var process := s.processes[p];
      Set(s, p, if ExpiringSoon(s, s.stored) then CheckingLock(process.since, process.polls + 1)
                else Done(Token(s.stored.generation)))
    case CheckLock(p, cacheUp) =>
      var process := s.processes[p];
      Set(s, p, if cacheUp && LockHeld(s) then LoopHead(s, process.since, process.polls) else Reloading)
    case Reload(p) =>
      Set(s, p, if ExpiringSoon(s, s.stored) then Reacquiring else Done(Token(s.stored.generation)))
    case Reacquire(p, cacheUp) => TryLock(s, p, cacheUp, Done(LimitExceeded))
    case Recheck(p) =>
      var acquiredAt := s.processes[p].acquiredAt;
      Set(s, p, if ExpiringSoon(s, s.stored) then Presenting(acquiredAt, s.stored.generation)
                else Leaving(acquiredAt, Token(s.stored.generation)))
    case Present(p, accepted, expiresIn) =>
      var process := s.processes[p];
      if accepted
      then
        var tokens := Tokens(s.issued, s.clock + expiresIn * 1000);
        Set(s, p, Storing(process.acquiredAt, tokens))
          .(issued := s.issued + 1, exchanged := s.exchanged + [process.generation])
      else Set(s, p, Leaving(process.acquiredAt, RefreshFailed))
    case Store(p) =>
      var process := s.processes[p];
      Set(s, p, Leaving(process.acquiredAt, Token(process.tokens.generation))).(stored := process.tokens)
    case Release(p, cacheUp) =>
      Set(s, p, Done(s.processes[p].outcome)).(lock := if cacheUp then None else s.lock)
    case Crash(p) => Set(s, p, Done(Crashed))
  }

  /** Critical sections end before the lock's time to live does.  The lock carries no owner, so nothing else keeps
      a late process from deleting its successor's lock. */
  ghost predicate Timely(s: State, step: Step) {
    step.Tick? ==>
      forall p: nat :: p < |s.processes| && Critical(s.processes[p]) ==>
        step.now < s.processes[p].acquiredAt + TOKEN_LOCK_TTL_MS
  }

  // ---- Runs ----

  ghost predicate Initial(s: State) {
    && s.lock == None && s.exchanged == [] && s.stored.generation < s.issued
    && forall p: nat :: p < |s.processes| ==> s.processes[p].Idle?
  }

  datatype Run = Start(initial: State) | Then(past: Run, step: Step)

  ghost predicate IsRun(run: Run)
    decreases run, 0
  {
    match run
    case Start(s) => Initial(s)
    case Then(past, step) => IsRun(past) && Enabled(After(past), step)
  }

  ghost function After(run: Run): State
    requires IsRun(run)
    decreases run, 1
  {
    match run
    case Start(s) => s
    case Then(past, step) => Next(After(past), step)
  }

  ghost predicate TimelyRun(run: Run)
    requires IsRun(run)
  {
    run.Then? ==> TimelyRun(run.past) && Timely(After(run.past), run.step)
  }

  // ---- The tokens ----

  /** About to use the stored refresh token, or about to replace it. */
  predicate Busy(process: Process) {
    process.Presenting? || process.Storing?
  }

  ghost predicate OneBusy(s: State) {
    forall p: nat, q: nat ::
      p < |s.processes| && q < |s.processes| && Busy(s.processes[p]) && Busy(s.processes[q]) ==> p == q
  }

  /** A process about to present a refresh token holds the stored one. */
  ghost predicate PresentsStored(s: State) {
    forall p: nat :: p < |s.processes| && s.processes[p].Presenting? ==>
      s.processes[p].generation == s.stored.generation
  }

  /** The stored refresh token is used up exactly while its replacement waits to be stored. */
  ghost predicate StoredUnused(s: State) {
    && s.stored.generation < s.issued
    && (forall g :: g in s.exchanged ==> g < s.issued)
    && (s.stored.generation in s.exchanged ==> exists p: nat :: p < |s.processes| && s.processes[p].Storing?)
    && (forall p: nat :: p < |s.processes| && s.processes[p].Storing? ==>
          && s.processes[p].tokens.generation < s.issued && s.processes[p].tokens.generation !in s.exchanged
          && s.stored.generation in s.exchanged)
  }

  ghost predicate NoRepeats(log: seq<nat>) {
    forall i, j :: 0 <= i < j < |log| ==> log[i] != log[j]
  }

  ghost predicate TokenInv(s: State) {
    OneBusy(s) && PresentsStored(s) && StoredUnused(s) && NoRepeats(s.exchanged)
  }

  /** A reload that decides to present finds no process between its own reload and its store. */
  ghost predicate Alone(s: State, step: Step) {
    step.Recheck? && ExpiringSoon(s, s.stored) ==> forall q: nat :: q < |s.processes| ==> !Busy(s.processes[q])
  }

  ghost predicate AloneRun(run: Run)
    requires IsRun(run)
  {
    run.Then? ==> AloneRun(run.past) && Alone(After(run.past), run.step)
  }

  lemma StepKeepsOneBusy(s: State, step: Step)
    requires TokenInv(s) && Enabled(s, step) && Alone(s, step)
    ensures OneBusy(Next(s, step)) && PresentsStored(Next(s, step))
  {
  }

  lemma ExchangeKeepsUnused(s: State, p: nat, accepted: bool, expiresIn: nat)
    requires TokenInv(s) && Enabled(s, Present(p, accepted, expiresIn))
    ensures StoredUnused(Next(s, Present(p, accepted, expiresIn)))
    ensures NoRepeats(Next(s, Present(p, accepted, expiresIn)).exchanged)
  {
    var s' := Next(s, Present(p, accepted, expiresIn));
    assert s.stored.generation !in s.exchanged;
    assert accepted ==> s'.processes[p].Storing?;
  }

  lemma StepKeepsUnused(s: State, step: Step)
    requires TokenInv(s) && Enabled(s, step) && Alone(s, step) && !step.Present?
    ensures StoredUnused(Next(s, step)) && NoRepeats(Next(s, step).exchanged)
  {
    var s' := Next(s, step);
    if s'.stored.generation in s'.exchanged {
      var p: nat :| p < |s.processes| && s.processes[p].Storing?;
      assert s'.processes[p].Storing?;
    }
  }

  lemma StepKeepsTokens(s: State, step: Step)
    requires TokenInv(s) && Enabled(s, step) && Alone(s, step)
    ensures TokenInv(Next(s, step))
  {
    StepKeepsOneBusy(s, step);
    if step.Present? {
      ExchangeKeepsUnused(s, step.p, step.accepted, step.expiresIn);
    } else {
      StepKeepsUnused(s, step);
    }
  }

  lemma {:induction false} RunKeepsTokens(run: Run)
    requires IsRun(run) && AloneRun(run)
    ensures TokenInv(After(run))
  {
    if run.Then? {
      RunKeepsTokens(run.past);
      StepKeepsTokens(After(run.past), run.step);
    }
  }

  /** Nobody is about to present an exchanged token, ... */
  ghost predicate PresentsUnused(s: State) {
    forall p: nat :: p < |s.processes| && s.processes[p].Presenting? ==> s.processes[p].generation !in s.exchanged
  }

  /** ... nor would be after whichever exchange comes next. */
  ghost predicate Safe(s: State) {
    && PresentsUnused(s)
    && forall q: nat, expiresIn: nat :: Enabled(s, Present(q, true, expiresIn)) ==>
      PresentsUnused(Next(s, Present(q, true, expiresIn)))
  }

  ghost predicate SafeRun(run: Run)
    requires IsRun(run)
  {
    Safe(After(run)) && (run.Then? ==> SafeRun(run.past))
  }

  lemma TokenInvIsSafe(s: State)
    requires TokenInv(s)
    ensures Safe(s)
  {
  }

  /** A second presenter or storer makes misuse of a token one exchange away, or immediate. */
  lemma CompanyIsUnsafe(s: State, p: nat, q: nat)
    requires TokenInv(s) && Enabled(s, Recheck(p)) && ExpiringSoon(s, s.stored)
    requires q < |s.processes| && Busy(s.processes[q])
    ensures !Safe(Next(s, Recheck(p)))
  {
    var s' := Next(s, Recheck(p));
    assert s'.processes[p].Presenting? && s'.processes[q] == s.processes[q];
    if s.processes[q].Presenting? {
      assert Enabled(s', Present(q, true, 0));
      var s'' := Next(s', Present(q, true, 0));
      assert s''.processes[p].Presenting? && s''.processes[p].generation == s.stored.generation;
      assert s''.exchanged[|s.exchanged|] == s.stored.generation;
    }
  }


  /** A step keeps the tokens safe exactly when it is alone. */
  lemma StepIsSafeExactly(s: State, step: Step)
    requires TokenInv(s) && Enabled(s, step)
    ensures Safe(Next(s, step)) <==> Alone(s, step)
  {
    if Alone(s, step) {
      StepKeepsTokens(s, step);
      TokenInvIsSafe(Next(s, step));
    } else {
      var q: nat :| q < |s.processes| && Busy(s.processes[q]);
      CompanyIsUnsafe(s, step.p, q);
    }
  }

  /** Timing aside: over the whole run no exchanged token is presented, nor one exchange away from it, exactly when
      every reload that decided to present was alone. */
  lemma {:induction false} RunIsSafeExactly(run: Run)
    requires IsRun(run)
    ensures SafeRun(run) <==> AloneRun(run)
  {
    if run.Then? {
      RunIsSafeExactly(run.past);
      if AloneRun(run.past) {
        RunKeepsTokens(run.past);
        StepIsSafeExactly(After(run.past), run.step);
      }
    } else {
      RunKeepsTokens(run);
      TokenInvIsSafe(After(run));
    }
  }

  // ---- Timely runs ----

  /** A process between acquiring and releasing owns an unexpired lock. */
  ghost predicate LockOwned(s: State) {
    forall p: nat :: p < |s.processes| && Critical(s.processes[p]) ==>
      && s.clock < s.processes[p].acquiredAt + TOKEN_LOCK_TTL_MS
      && s.lock == Some(s.processes[p].acquiredAt + TOKEN_LOCK_TTL_MS)
  }

  ghost predicate Exclusive(s: State) {
    forall p: nat, q: nat ::
      p < |s.processes| && q < |s.processes| && Critical(s.processes[p]) && Critical(s.processes[q]) ==> p == q
  }

  ghost predicate Inv(s: State) {
    LockOwned(s) && Exclusive(s)
  }

  lemma StepKeepsLock(s: State, step: Step)
    requires Inv(s) && Enabled(s, step) && Timely(s, step)
    ensures LockOwned(Next(s, step))
  {
  }

  lemma StepKeepsExclusive(s: State, step: Step)
    requires Inv(s) && Enabled(s, step) && Timely(s, step)
    ensures Exclusive(Next(s, step))
  {
  }

  lemma {:induction false} RunKeepsInv(run: Run)
    requires IsRun(run) && TimelyRun(run)
    ensures Inv(After(run))
  {
    if run.Then? {
      RunKeepsInv(run.past);
      StepKeepsLock(After(run.past), run.step);
      StepKeepsExclusive(After(run.past), run.step);
    }
  }

  /** The lock keeps reloads alone as long as critical sections are shorter than its time to live. */
  lemma {:induction false} TimelyRunsAreAlone(run: Run)
    requires IsRun(run) && TimelyRun(run)
    ensures AloneRun(run)
  {
    if run.Then? {
      TimelyRunsAreAlone(run.past);
      RunKeepsInv(run.past);
      assert run.step.Recheck? ==> Critical(After(run.past).processes[run.step.p]);
    }
  }

  // ---- Polling ----

  /** The polling loop has slept at least one interval per poll, inside its deadline. */
  ghost predicate PollsBounded(s: State) {
    forall p: nat :: p < |s.processes| ==>
      && (s.processes[p].Sleeping? ==>
            var process := s.processes[p];
            process.since + POLL_INTERVAL_MS * (process.polls + 1) <= process.wakeAt
            < process.since + TOKEN_LOCK_TTL_MS + POLL_INTERVAL_MS)
      && (s.processes[p].CheckingLock? ==>
            var process := s.processes[p];
            process.since + POLL_INTERVAL_MS * process.polls <= s.clock && 0 < process.polls <= 150)
  }

  lemma StepKeepsPolls(s: State, step: Step)
    requires PollsBounded(s) && Enabled(s, step)
    ensures PollsBounded(Next(s, step))
  {
  }

  lemma {:induction false} RunKeepsPolls(run: Run)
    requires IsRun(run)
    ensures PollsBounded(After(run))
  {
    if run.Then? {
      RunKeepsPolls(run.past);
      StepKeepsPolls(After(run.past), run.step);
    }
  }

  // ---- The results ----

  /** At most one process is inside `performRefresh`. */
  lemma OneRefreshAtATime(run: Run, p: nat, q: nat)
    requires IsRun(run) && TimelyRun(run)
    requires p < |After(run).processes| && Refreshing(After(run).processes[p])
    requires q < |After(run).processes| && Refreshing(After(run).processes[q])
    ensures p == q
  {
    RunKeepsInv(run);
  }

  /** No refresh token the server has exchanged is ever presented again, and none is exchanged twice. */
  lemma ExchangedTokenNeverPresented(run: Run, p: nat)
    requires IsRun(run) && TimelyRun(run)
    requires p < |After(run).processes| && After(run).processes[p].Presenting?
    ensures After(run).processes[p].generation !in After(run).exchanged
    ensures NoRepeats(After(run).exchanged)
  {
    TimelyRunsAreAlone(run);
    RunKeepsTokens(run);
    TokenInvIsSafe(After(run));
  }

  /** A loser polls at most 150 times, in every run. */
  lemma LosersPollBoundedly(run: Run, p: nat)
    requires IsRun(run) && p < |After(run).processes|
    requires After(run).processes[p].Sleeping? || After(run).processes[p].CheckingLock?
    ensures After(run).processes[p].polls <= 150
  {
    RunKeepsPolls(run);
  }

  // ---- Freshness ----

  /** The process has got, or is about to be given, this generation without an exchange of its own. */
  predicate Given(process: Process, generation: nat) {
    process == Done(Token(generation)) || (process.Leaving? && process.outcome == Token(generation))
  }

  /** In every run, a step that gives a process a token without an exchange read one that outlasts the refresh window:
      the caller's document, or the stored tokens. */
  lemma GivenTokensAreFresh(run: Run, p: nat, generation: nat)
    requires IsRun(run) && run.Then? && p < |After(run).processes|
    requires Given(After(run).processes[p], generation) && !Given(After(run.past).processes[p], generation)
    requires !(run.step.Store? && run.step.p == p)
    ensures var s, step := After(run.past), run.step;
      if step.Call? then step.snapshot.expiresAt > s.clock + s.window && generation == step.snapshot.generation
      else s.stored.expiresAt > s.clock + s.window && generation == s.stored.generation
  {
  }

  /** And each place that reads tokens gives them out exactly when they outlast the window. */
  lemma FreshTokensAreGiven(s: State, step: Step)
    requires Enabled(s, step)
    requires step.Call? || step.Poll? || step.Reload? || step.Recheck?
    ensures var read := if step.Call? then step.snapshot else s.stored;
      Given(Next(s, step).processes[step.p], read.generation) <==> read.expiresAt > s.clock + s.window
  {
  }

  /** In every run a process comes to present a refresh token only when the stored tokens do not outlast the window. */
  lemma PresentersFoundExpiring(run: Run, p: nat)
    requires IsRun(run) && run.Then? && p < |After(run).processes|
    requires After(run).processes[p].Presenting? && !After(run.past).processes[p].Presenting?
    ensures After(run.past).stored.expiresAt <= After(run.past).clock + After(run.past).window
    ensures After(run).processes[p].generation == After(run.past).stored.generation
  {
  }

  // ---- Without the timing assumption ----

  lemma Take(run: Run, s: State, step: Step) returns (longer: Run, s': State)
    requires IsRun(run) && After(run) == s && Enabled(s, step)
    ensures IsRun(longer) && s' == Next(s, step) && After(longer) == s'
  {
    longer, s' := Then(run, step), Next(s, step);
  }

  lemma SlowHolderPresents() returns (run: Run)
    ensures IsRun(run)
    ensures After(run) == State(0, 0, Some(TOKEN_LOCK_TTL_MS), Tokens(0, 0), 1, [], [Presenting(0, 0), Idle])
  {
    var s := State(0, 0, None, Tokens(0, 0), 1, [], [Idle, Idle]);
    run := Start(s);
    run, s := Take(run, s, Call(0, Tokens(0, 0)));
    run, s := Take(run, s, Acquire(0, true));
    run, s := Take(run, s, Recheck(0));
    assert s.processes == [Presenting(0, 0), Idle];
  }

  /** A holder slower than the time to live: the lock expires under it, a second process acquires it and reads the
      same refresh token; the first exchanges it, and the second is about to present it again. */
  lemma SlowHolderReusesTheToken() returns (run: Run)
    ensures IsRun(run)
    ensures var s := After(run);
      |s.processes| == 2 && s.processes[1] == Presenting(TOKEN_LOCK_TTL_MS, 0) && s.exchanged == [0]
  {
    run := SlowHolderPresents();
    var s := After(run);
    run, s := Take(run, s, Tick(TOKEN_LOCK_TTL_MS));
    run, s := Take(run, s, Call(1, Tokens(0, 0)));
    run, s := Take(run, s, Acquire(1, true));
    run, s := Take(run, s, Recheck(1));
    assert s.processes == [Presenting(0, 0), Presenting(TOKEN_LOCK_TTL_MS, 0)];
    run, s := Take(run, s, Present(0, true, 1));
  }
}
