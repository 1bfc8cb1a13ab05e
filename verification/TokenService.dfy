/** The token service itself: `performRefresh`, the lock around it, and the losers' polling loop.

    Each call runs here with no other process between its steps; `TokenRefresh` has the interleavings.  Clock readings
    and the provider's answer are parameters. */
module TokenService {
  import opened Options
  import opened TokenRefresh

  datatype Reply = Refused | Accepted(expiresIn: nat)

  /** What one turn of the polling loop sees after its sleep. */
  datatype Observation = Observation(now: int, stored: Tokens, lockGone: bool)

  predicate ExpiresWithin(tokens: Tokens, now: int, window: int) {
    tokens.expiresAt <= now + window
  }

  /** Readings a loop that sleeps the poll interval each turn can get. */
  ghost predicate Spaced(seen: seq<Observation>, since: int) {
    forall i :: 0 <= i < |seen| ==> since + (i + 1) * POLL_INTERVAL_MS <= seen[i].now
  }

  /** Turn `i` neither finds fresh tokens nor a free lock. */
  predicate KeepsWaiting(seen: seq<Observation>, i: int, window: int)
    requires 0 <= i < |seen|
  {
    seen[i].stored.expiresAt <= seen[i].now + window && !seen[i].lockGone
  }

  /** The loop took `turns` turns: it stopped at the first that found fresh tokens, or found the lock gone, or else at
      the deadline. */
  ghost predicate Polled(since: int, window: int, seen: seq<Observation>, found: Option<Outcome>, turns: nat) {
    && 0 < turns <= 150 && turns <= |seen|
    && (forall i :: 0 <= i < turns - 1 ==> KeepsWaiting(seen, i, window))
    && var last := seen[turns - 1];
    match found
    case Some(outcome) => last.stored.expiresAt > last.now + window && outcome == Token(last.stored.generation)
    case None =>
      last.stored.expiresAt <= last.now + window && (last.lockGone || since + 30_000 <= last.now)
  }

  /** The polling loop of `handleConcurrentLock`. */
  method PollForFreshTokens(since: int, window: int, seen: seq<Observation>)
    returns (found: Option<Outcome>, turns: nat)
    requires |seen| >= 150 && Spaced(seen, since)
    ensures Polled(since, window, seen, found, turns)
  {
    var deadline := since + TOKEN_LOCK_TTL_MS;
    var now := since;
    turns := 0;
    while now < deadline
      invariant turns <= 150 && now == (if turns == 0 then since else seen[turns - 1].now)
      invariant forall i :: 0 <= i < turns ==> KeepsWaiting(seen, i, window)
      invariant turns > 0 ==> ExpiresWithin(seen[turns - 1].stored, seen[turns - 1].now, window)
      decreases 150 - turns
    {
      assert turns < 150;
      var observation := seen[turns];
      now := observation.now;
      turns := turns + 1;
      if !ExpiresWithin(observation.stored, observation.now, window) {
        return Some(Token(observation.stored.generation)), turns;
      }
      if observation.lockGone {
        break;
      }
    }
    found := None;
  }

  class SallaTokenService {
    const window: int
    var lock: Option<int>
    var stored: Tokens
    var issued: nat
    var exchanged: seq<nat>

    constructor (window: int, stored: Tokens, issued: nat)
      ensures this.window == window && this.stored == stored && this.issued == issued
      ensures lock == None && exchanged == []
    {
      this.window, this.stored, this.issued := window, stored, issued;
      lock, exchanged := None, [];
    }

    /** The state as the protocol sees it, at a given time and with given processes. */
    ghost function Shared(now: int, processes: seq<Process>): State
      reads this
    {
      State(now, window, lock, stored, issued, exchanged, processes)
    }

    method PerformRefresh(now: int, reply: Reply) returns (outcome: Outcome)
      modifies this`stored, this`issued, this`exchanged
      // A stored token that outlasts the refresh window is kept; any other is exchanged.
      ensures old(stored).expiresAt > now + window ==>
        outcome == Token(old(stored).generation) && unchanged(this)
      ensures old(stored).expiresAt <= now + window && reply.Refused? ==>
        outcome == RefreshFailed && unchanged(this)
      ensures old(stored).expiresAt <= now + window && reply.Accepted? ==>
        && outcome == Token(old(issued)) && issued == old(issued) + 1
        && exchanged == old(exchanged) + [old(stored).generation]
        && stored == Tokens(old(issued), now + reply.expiresIn * 1000)
    {
      if !ExpiresWithin(stored, now, window) {
        return Token(stored.generation);
      }
      if reply.Refused? {
        return RefreshFailed;
      }
      exchanged := exchanged + [stored.generation];
      stored := Tokens(issued, now + reply.expiresIn * 1000);
      outcome := Token(issued);
      issued := issued + 1;
    }

    /** The loser's path: wait; then, unless a fresh token turned up, reload and try the lock once more.  From the end
        of the loop on it is exactly the protocol's steps. */
    method HandleConcurrentLock(now: int, m: Meanwhile, reply: Reply) returns (outcome: Outcome, turns: nat)
      requires Plausible(m, now, window)
      modifies this
      ensures Waited(now, window, m, reply, outcome, turns, Shared(m.after.clock, [Done(outcome)]))
      ensures EndsAs(m, window, reply, outcome, stored, issued, exchanged)
    {
      var found;
      found, turns := PollForFreshTokens(now, window, m.seen);
      lock, stored, issued, exchanged := m.after.lock, m.after.stored, m.after.issued, m.after.exchanged;
      if found.Some? {
        assert IsFreshAt(m.seen, turns - 1, window);
        return found.value, turns;
      }
      var later := m.after.clock;
      LoserLeads(m.after, m.cacheUp, reply);
      if !ExpiresWithin(stored, later, window) {
        return Token(stored.generation), turns;
      }
      if !m.cacheUp || (lock.Some? && later < lock.value) {
        return LimitExceeded, turns;
      }
      lock := Some(later + TOKEN_LOCK_TTL_MS);
      outcome := PerformRefresh(later, reply);
      lock := None;
    }

    /** Winner or loser.  The winner's path is exactly the protocol's Acquire, Recheck, Present, Store and Release in a
        row; an unreachable cache reads as a taken lock. */
    method RefreshAccessToken(now: int, cacheUp: bool, m: Meanwhile, reply: Reply)
      returns (outcome: Outcome, turns: nat)
      requires Plausible(m, now, window)
      modifies this
      ensures cacheUp && !old(LockHeld(Shared(now, []))) ==>
        && Leads(old(Shared(now, [Acquiring])), WinnerSteps(old(stored), now, window, reply),
                 Shared(now, [Done(outcome)]))
        && Refreshed(old(stored), old(issued), old(exchanged), now, window, reply, outcome, stored, issued, exchanged)
      ensures !cacheUp || old(LockHeld(Shared(now, []))) ==>
        && Waited(now, window, m, reply, outcome, turns, Shared(m.after.clock, [Done(outcome)]))
        && EndsAs(m, window, reply, outcome, stored, issued, exchanged)
    {
      if !cacheUp || (lock.Some? && now < lock.value) {
        outcome, turns := HandleConcurrentLock(now, m, reply);
        return;
      }
      lock := Some(now + TOKEN_LOCK_TTL_MS);
      outcome := PerformRefresh(now, reply);
      lock := None;
      turns := 0;
      WinnerLeads(old(Shared(now, [Acquiring])), reply);
    }

    /** A document that outlasts the refresh window is trusted as it is; anything else is refreshed, by this process
        when the lock is free and by waiting otherwise. */
    method GetValidAccessToken(document: Tokens, now: int, cacheUp: bool, m: Meanwhile, reply: Reply)
      returns (outcome: Outcome)
      requires Plausible(m, now, window)
      modifies this
      ensures document.expiresAt > now + window ==> outcome == Token(document.generation) && unchanged(this)
      ensures document.expiresAt <= now + window && cacheUp && (old(lock).Some? ==> old(lock).value <= now) ==>
        && Refreshed(old(stored), old(issued), old(exchanged), now, window, reply, outcome, stored, issued, exchanged)
        && lock == None
      ensures document.expiresAt <= now + window && !(cacheUp && (old(lock).Some? ==> old(lock).value <= now)) ==>
        EndsAs(m, window, reply, outcome, stored, issued, exchanged)
    {
      if !ExpiresWithin(document, now, window) {
        return Token(document.generation);
      }
      if cacheUp && !LockHeld(Shared(now, [])) {
        WinnerLeads(Shared(now, [Acquiring]), reply);
      }
      ghost var before, steps := Shared(now, [Acquiring]), WinnerSteps(stored, now, window, reply);
      var turns;
      outcome, turns := RefreshAccessToken(now, cacheUp, m, reply);
      if cacheUp && !LockHeld(before) {
        SameEnd(before, steps, WinnerOutcome(before, reply), Shared(now, [Done(outcome)]));
      }
    }
  }

  /** A refresh under the lock, in plain times: a stored token that outlasts the window is answered, any other is
      exchanged, and nothing else happens. */
  ghost predicate Refreshed(
    storedBefore: Tokens, issuedBefore: nat, exchangedBefore: seq<nat>, now: int, window: int, reply: Reply,
    outcome: Outcome, stored: Tokens, issued: nat, exchanged: seq<nat>)
  {
    if storedBefore.expiresAt > now + window then
      outcome == Token(storedBefore.generation)
      && stored == storedBefore && issued == issuedBefore && exchanged == exchangedBefore
    else if reply.Refused? then
      outcome == RefreshFailed && stored == storedBefore && issued == issuedBefore && exchanged == exchangedBefore
    else
      && outcome == Token(issuedBefore) && issued == issuedBefore + 1
      && exchanged == exchangedBefore + [storedBefore.generation]
      && stored == Tokens(issuedBefore, now + reply.expiresIn * 1000)
  }

  /** How a wait ends, in plain times: with a token that outlasted the window when a poll read it; refused because the
      lock cannot be had; or refreshed, from what the others left. */
  ghost predicate EndsAs(
    m: Meanwhile, window: int, reply: Reply, outcome: Outcome, stored: Tokens, issued: nat, exchanged: seq<nat>)
  {
    var after := m.after;
    var untouched := stored == after.stored && issued == after.issued && exchanged == after.exchanged;
    || (untouched && exists i :: 0 <= i < |m.seen| && m.seen[i].stored.expiresAt > m.seen[i].now + window
                                 && outcome == Token(m.seen[i].stored.generation))
    || (untouched && outcome == LimitExceeded && after.stored.expiresAt <= after.clock + window
        && (!m.cacheUp || (after.lock.Some? && after.clock < after.lock.value)))
    || Refreshed(after.stored, after.issued, after.exchanged, after.clock, window, reply, outcome, stored, issued,
                 exchanged)
  }

  /** What goes on while a process waits: what each poll sees, the shared state when the loop is over, and whether the
      cache then answers. */
  datatype Meanwhile = Meanwhile(seen: seq<Observation>, after: State, cacheUp: bool)

  ghost predicate Plausible(m: Meanwhile, since: int, window: int) {
    && |m.seen| >= 150 && Spaced(m.seen, since)
    && m.after.processes == [Reloading] && m.after.window == window
  }

  predicate IsFreshAt(seen: seq<Observation>, i: int, window: int) {
    0 <= i < |seen| && seen[i].stored.expiresAt > seen[i].now + window
  }

  /** How a wait ends: with the token a poll found, or by the protocol's steps from the reload on. */
  ghost predicate Waited(
    since: int, window: int, m: Meanwhile, reply: Reply, outcome: Outcome, turns: nat, end: State)
  {
    || Polled(since, window, m.seen, Some(outcome), turns)
    || (Polled(since, window, m.seen, None, turns) && Leads(m.after, LoserSteps(m.after, m.cacheUp, reply), end))
  }

  /** The state after a row of steps, each enabled when its turn comes. */
  predicate Leads(s: State, steps: seq<Step>, s': State)
    decreases |steps|
  {
    if steps == [] then s == s' else Enabled(s, steps[0]) && Leads(Next(s, steps[0]), steps[1..], s')
  }

  lemma {:induction false} SameEnd(s: State, steps: seq<Step>, a: State, b: State)
    requires Leads(s, steps, a) && Leads(s, steps, b)
    ensures a == b
    decreases |steps|
  {
    if steps != [] {
      SameEnd(Next(s, steps[0]), steps[1..], a, b);
    }
  }

  /** From the lock's acquisition to its release. */
  function RefreshSteps(stored: Tokens, now: int, window: int, reply: Reply): seq<Step> {
    if !ExpiresWithin(stored, now, window) then [Recheck(0), Release(0, true)]
    else
      match reply
      case Refused => [Recheck(0), Present(0, false, 0), Release(0, true)]
      case Accepted(expiresIn) => [Recheck(0), Present(0, true, expiresIn), Store(0), Release(0, true)]
  }

  function WinnerSteps(stored: Tokens, now: int, window: int, reply: Reply): seq<Step> {
    [Acquire(0, true)] + RefreshSteps(stored, now, window, reply)
  }

  function LoserSteps(after: State, cacheUp: bool, reply: Reply): seq<Step> {
    if !ExpiringSoon(after, after.stored) then [Reload(0)]
    else if !cacheUp || LockHeld(after) then [Reload(0), Reacquire(0, cacheUp)]
    else [Reload(0)] + ([Reacquire(0, true)] + RefreshSteps(after.stored, after.clock, after.window, reply))
  }

  function WinnerOutcome(s: State, reply: Reply): State {
    if !ExpiringSoon(s, s.stored) then s.(lock := None, processes := [Done(Token(s.stored.generation))])
    else
      match reply
      case Refused => s.(lock := None, processes := [Done(RefreshFailed)])
      case Accepted(expiresIn) =>
        s.(lock := None, processes := [Done(Token(s.issued))], issued := s.issued + 1,
           exchanged := s.exchanged + [s.stored.generation], stored := Tokens(s.issued, s.clock + expiresIn * 1000))
  }

  function LoserOutcome(after: State, cacheUp: bool, reply: Reply): State {
    if ExpiringSoon(after, after.stored) && (!cacheUp || LockHeld(after))
    then after.(processes := [Done(LimitExceeded)])
    else if ExpiringSoon(after, after.stored) then WinnerOutcome(after, reply)
    else after.(processes := [Done(Token(after.stored.generation))])
  }

  lemma Prepend(s: State, step: Step, steps: seq<Step>, s': State)
    requires Enabled(s, step) && Leads(Next(s, step), steps, s')
    ensures Leads(s, [step] + steps, s')
  {
    assert ([step] + steps)[1..] == steps;
  }

  lemma ExchangeLeads(s: State, rechecked: State, expiresIn: nat)
    requires s.processes == [Rechecking(s.clock)] && ExpiringSoon(s, s.stored)
    requires rechecked == Next(s, Recheck(0))
    ensures Leads(rechecked, [Present(0, true, expiresIn), Store(0), Release(0, true)],
                  WinnerOutcome(s, Accepted(expiresIn)))
  {
    var end := WinnerOutcome(s, Accepted(expiresIn));
    var presented := Next(rechecked, Present(0, true, expiresIn));
    var kept := Next(presented, Store(0));
    assert Next(kept, Release(0, true)) == end;
    Prepend(kept, Release(0, true), [], end);
    Prepend(presented, Store(0), [Release(0, true)], end);
    Prepend(rechecked, Present(0, true, expiresIn), [Store(0), Release(0, true)], end);
  }

  /** From the lock's acquisition on. */
  lemma RefreshLeads(s: State, reply: Reply)
    requires s.processes == [Rechecking(s.clock)]
    ensures Leads(s, RefreshSteps(s.stored, s.clock, s.window, reply), WinnerOutcome(s, reply))
  {
    var rechecked := Next(s, Recheck(0));
    var end := WinnerOutcome(s, reply);
    if !ExpiringSoon(s, s.stored) {
      assert Next(rechecked, Release(0, true)) == end;
      Prepend(rechecked, Release(0, true), [], end);
      Prepend(s, Recheck(0), [Release(0, true)], end);
    } else if reply.Refused? {
      var refused := Next(rechecked, Present(0, false, 0));
      assert Next(refused, Release(0, true)) == end;
      Prepend(refused, Release(0, true), [], end);
      Prepend(rechecked, Present(0, false, 0), [Release(0, true)], end);
      Prepend(s, Recheck(0), [Present(0, false, 0), Release(0, true)], end);
    } else {
      ExchangeLeads(s, rechecked, reply.expiresIn);
      Prepend(s, Recheck(0), [Present(0, true, reply.expiresIn), Store(0), Release(0, true)], end);
    }
  }

  /** The winner's row of steps is enabled throughout and ends where the method does. */
  lemma WinnerLeads(s: State, reply: Reply)
    requires s.processes == [Acquiring] && !LockHeld(s)
    ensures Leads(s, WinnerSteps(s.stored, s.clock, s.window, reply), WinnerOutcome(s, reply))
  {
    var acquired := Next(s, Acquire(0, true));
    RefreshLeads(acquired, reply);
    assert WinnerOutcome(acquired, reply) == WinnerOutcome(s, reply);
    Prepend(s, Acquire(0, true), RefreshSteps(s.stored, s.clock, s.window, reply), WinnerOutcome(s, reply));
  }

  /** So is the loser's after the polling loop. */
  lemma LoserLeads(after: State, cacheUp: bool, reply: Reply)
    requires after.processes == [Reloading]
    ensures Leads(after, LoserSteps(after, cacheUp, reply), LoserOutcome(after, cacheUp, reply))
  {
    var reloaded := Next(after, Reload(0));
    var end := LoserOutcome(after, cacheUp, reply);
    if !ExpiringSoon(after, after.stored) {
      Prepend(after, Reload(0), [], end);
    } else {
      var reacquired := Next(reloaded, Reacquire(0, cacheUp));
      if !cacheUp || LockHeld(after) {
        Prepend(reloaded, Reacquire(0, cacheUp), [], end);
        Prepend(after, Reload(0), [Reacquire(0, cacheUp)], end);
      } else {
        var inside := RefreshSteps(after.stored, after.clock, after.window, reply);
        RefreshLeads(reacquired, reply);
        assert WinnerOutcome(reacquired, reply) == end;
        Prepend(reloaded, Reacquire(0, true), inside, end);
        Prepend(after, Reload(0), [Reacquire(0, true)] + inside, end);
      }
    }
  }
}
