/** When two sends of the same message are a cooldown apart. */
module SlackCooldown {
  import opened Options
  import opened SlackThrottle

  /** The different messages sent in the half-open window that ends at `end`. */
  ghost function SentWithin(sent: seq<Entry>, end: int, cooldown: int): set<string> {
    set i | 0 <= i < |sent| && end - cooldown < sent[i].time <= end :: sent[i].key
  }

  /** No cooldown window sees more different messages than the cache holds. */
  ghost predicate IsCalm(sent: seq<Entry>, cooldown: int) {
    forall end: int :: |SentWithin(sent, end, cooldown)| <= CACHE_MAX_SIZE
  }

  ghost predicate IsSpaced(sent: seq<Entry>, cooldown: int) {
    forall i, j :: 0 <= i < j < |sent| && sent[i].key == sent[j].key ==> sent[j].time - sent[i].time >= cooldown
  }

  /** Every message still cooling down is in the cache with a time no older than that send. */
  ghost predicate Remembers(cache: seq<Entry>, sent: seq<Entry>, now: int, cooldown: int) {
    forall i :: 0 <= i < |sent| && now - sent[i].time < cooldown ==>
      var known := Lookup(cache, sent[i].key);
      known.Some? && sent[i].time <= known.value
  }

  ghost predicate Inv(s: State, now: int, cooldown: int) {
    && |Keys(s.cache)| == |s.cache|
    && (forall e :: e in s.cache ==> e in s.sent)
    && (forall e :: e in s.sent ==> 0 < e.time <= now)
    && Remembers(s.cache, s.sent, now, cooldown)
    && IsSpaced(s.sent, cooldown)
  }

  // ---- Facts about the cache ----

  lemma {:induction false} KeysAtMost(cache: seq<Entry>)
    ensures |Keys(cache)| <= |cache|
  {
    if cache != [] {
      KeysAtMost(cache[1..]);
    }
  }

  lemma {:induction false} RecentKeepsKeysDistinct(cache: seq<Entry>, now: int, cooldown: int)
    requires |Keys(cache)| == |cache|
    ensures |Keys(Recent(cache, now, cooldown))| == |Recent(cache, now, cooldown)|
  {
    if cache != [] {
      var rest := Recent(cache[1..], now, cooldown);
      KeysAtMost(cache[1..]);
      assert cache[0].key !in Keys(cache[1..]);
      RecentKeepsKeysDistinct(cache[1..], now, cooldown);
      RecentShrinks(cache[1..], now, cooldown);
      assert ([cache[0]] + rest)[1..] == rest;
    }
  }

  lemma {:induction false} LookupAfterPut(cache: seq<Entry>, key: string, time: int, k: string)
    ensures Lookup(Put(cache, key, time), k) == if k == key then Some(time) else Lookup(cache, k)
  {
    if cache != [] && cache[0].key != key {
      LookupAfterPut(cache[1..], key, time, k);
    }
  }

  lemma {:induction false} LookupAfterSweep(cache: seq<Entry>, now: int, cooldown: int, key: string)
    requires Lookup(cache, key).Some? && now - Lookup(cache, key).value < cooldown
    ensures Lookup(Recent(cache, now, cooldown), key) == Lookup(cache, key)
  {
    if cache[0].key != key {
      LookupAfterSweep(cache[1..], now, cooldown, key);
    }
  }

  lemma {:induction false} KeysAreEntries(cache: seq<Entry>, key: string) returns (i: nat)
    requires key in Keys(cache)
    ensures i < |cache| && cache[i].key == key
  {
    if cache[0].key == key {
      i := 0;
    } else {
      var j := KeysAreEntries(cache[1..], key);
      i := j + 1;
    }
  }

  lemma {:induction false} SubsetIsSmaller(a: set<string>, b: set<string>)
    requires a <= b
    ensures |a| <= |b|
  {
    if a != {} {
      var x :| x in a;
      SubsetIsSmaller(a - {x}, b - {x});
    }
  }

  // ---- The step ----

  /** The call drops an entry that is still cooling down: the branch where the sweep was not enough. */
  predicate Evicts(s: State, call: Call, cooldown: int) {
    var recent := Recent(s.cache, call.now, cooldown);
    && !IsCooling(s.cache, call.message, call.now, cooldown)
    && |recent| >= CACHE_MAX_SIZE && recent[0].key != ""
  }

  /** In a calm run the sweep always makes room, so nothing cooling down is dropped. */
  lemma SweepSuffices(s: State, call: Call, cooldown: int)
    requires Inv(s, call.now, cooldown) && call.now > 0
    requires !IsCooling(s.cache, call.message, call.now, cooldown)
    requires IsCalm(s.sent + [Entry(call.message, call.now)], cooldown)
    requires cooldown > 0
    ensures |Recent(s.cache, call.now, cooldown)| < CACHE_MAX_SIZE
  {
    var recent := Recent(s.cache, call.now, cooldown);
    var sent := s.sent + [Entry(call.message, call.now)];
    var window := SentWithin(sent, call.now, cooldown);
    RecentKeepsKeysDistinct(s.cache, call.now, cooldown);
    KeysWereSent(s, call, cooldown);
    assert sent[|s.sent|] == Entry(call.message, call.now) && call.message in window;
    SubsetIsSmaller(Keys(recent) + {call.message}, window);
  }

  lemma KeysWereSent(s: State, call: Call, cooldown: int)
    requires Inv(s, call.now, cooldown)
    requires !IsCooling(s.cache, call.message, call.now, cooldown)
    ensures Keys(Recent(s.cache, call.now, cooldown))
         <= SentWithin(s.sent + [Entry(call.message, call.now)], call.now, cooldown)
    ensures call.message !in Keys(Recent(s.cache, call.now, cooldown))
  {
    forall k | k in Keys(Recent(s.cache, call.now, cooldown))
      ensures k in SentWithin(s.sent + [Entry(call.message, call.now)], call.now, cooldown) && k != call.message
    {
      RecentKeyWasSent(s, call, cooldown, k);
    }
  }

  lemma RecentKeyWasSent(s: State, call: Call, cooldown: int, k: string)
    requires Inv(s, call.now, cooldown)
    requires !IsCooling(s.cache, call.message, call.now, cooldown)
    requires k in Keys(Recent(s.cache, call.now, cooldown))
    ensures k in SentWithin(s.sent + [Entry(call.message, call.now)], call.now, cooldown)
    ensures k != call.message
  {
    var recent := Recent(s.cache, call.now, cooldown);
    var sent := s.sent + [Entry(call.message, call.now)];
    RecentShrinks(s.cache, call.now, cooldown);
    var j := KeysAreEntries(recent, k);
    var e := recent[j];
    assert e in recent && e in s.cache && e in s.sent;
    var i :| 0 <= i < |s.sent| && s.sent[i] == e;
    assert sent[i] == e;
    LookupIsEntry(s.cache, k);
    assert Lookup(s.cache, k).Some? && e.time <= Lookup(s.cache, k).value;
  }

  /** Without eviction only entries past the cooldown go. */
  lemma RoomKeepsCooling(s: State, call: Call, cooldown: int)
    requires Inv(s, call.now, cooldown)
    requires !IsCooling(s.cache, call.message, call.now, cooldown) && !Evicts(s, call, cooldown)
    ensures var room := MadeRoom(s.cache, call.now, cooldown);
      && |Keys(room)| == |room|
      && (forall e :: e in room ==> e in s.cache)
      && (forall k :: Lookup(s.cache, k).Some? && call.now - Lookup(s.cache, k).value < cooldown ==>
            Lookup(room, k) == Lookup(s.cache, k))
  {
    RecentShrinks(s.cache, call.now, cooldown);
    RecentKeepsKeysDistinct(s.cache, call.now, cooldown);
    forall k | Lookup(s.cache, k).Some? && call.now - Lookup(s.cache, k).value < cooldown
      ensures Lookup(Recent(s.cache, call.now, cooldown), k) == Lookup(s.cache, k)
    {
      LookupAfterSweep(s.cache, call.now, cooldown, k);
    }
  }

  lemma StepKeepsInv(s: State, call: Call, cooldown: int)
    requires Inv(s, call.now, cooldown) && call.now > 0 && cooldown > 0 && !Evicts(s, call, cooldown)
    ensures Inv(Next(s, call, cooldown), call.now, cooldown)
  {
    if !IsCooling(s.cache, call.message, call.now, cooldown) {
      var room, t := MadeRoom(s.cache, call.now, cooldown), Next(s, call, cooldown);
      RoomKeepsCooling(s, call, cooldown);
      PutGrows(room, call.message, call.now);
      LookupMatchesKeys(room, call.message);
      PutEntries(room, call.message, call.now);
      forall i | 0 <= i < |t.sent| && call.now - t.sent[i].time < cooldown
        ensures Lookup(t.cache, t.sent[i].key).Some? && t.sent[i].time <= Lookup(t.cache, t.sent[i].key).value
      {
        LookupAfterPut(room, call.message, call.now, t.sent[i].key);
        assert t.sent[i].key != call.message ==> t.sent[i] == s.sent[i];
      }
      NextIsSpaced(s, call, cooldown);
    }
  }

  lemma NextIsSpaced(s: State, call: Call, cooldown: int)
    requires Inv(s, call.now, cooldown)
    requires !IsCooling(s.cache, call.message, call.now, cooldown)
    ensures IsSpaced(s.sent + [Entry(call.message, call.now)], cooldown)
  {
    LookupIsEntry(s.cache, call.message);
    forall i | 0 <= i < |s.sent| && s.sent[i].key == call.message
      ensures call.now - s.sent[i].time >= cooldown
    {
      assert s.sent[i] in s.sent;
    }
  }

  lemma {:induction false} LookupMatchesKeys(cache: seq<Entry>, key: string)
    ensures Lookup(cache, key).Some? <==> key in Keys(cache)
  {
    if cache != [] {
      LookupMatchesKeys(cache[1..], key);
    }
  }

  lemma {:induction false} PutEntries(cache: seq<Entry>, key: string, time: int)
    ensures forall e :: e in Put(cache, key, time) ==> e == Entry(key, time) || e in cache
  {
    if cache != [] && cache[0].key != key {
      PutEntries(cache[1..], key, time);
    }
  }

  // ---- The runs ----

  lemma CalmPrefix(front: seq<Entry>, last: Entry, cooldown: int)
    requires IsCalm(front + [last], cooldown)
    ensures IsCalm(front, cooldown)
  {
    forall end: int
      ensures |SentWithin(front, end, cooldown)| <= CACHE_MAX_SIZE
    {
      assert forall i :: 0 <= i < |front| ==> (front + [last])[i] == front[i];
      SubsetIsSmaller(SentWithin(front, end, cooldown), SentWithin(front + [last], end, cooldown));
    }
  }

  /** No call of the run drops an entry that is still cooling down. */
  ghost predicate NeverEvicts(calls: seq<Call>, cooldown: int) {
    calls != [] ==>
      var n := |calls| - 1;
      NeverEvicts(calls[..n], cooldown) && !Evicts(After(calls[..n], cooldown), calls[n], cooldown)
  }

  /** Whatever is called next at this time, the sends stay a cooldown apart. */
  ghost predicate CannotRepeat(s: State, now: int, cooldown: int) {
    forall message: string :: IsSpaced(Next(s, Call(message, now), cooldown).sent, cooldown)
  }

  ghost predicate CannotRepeatThroughout(calls: seq<Call>, cooldown: int) {
    calls != [] ==>
      var n := |calls| - 1;
      CannotRepeatThroughout(calls[..n], cooldown) && CannotRepeat(After(calls, cooldown), calls[n].now, cooldown)
  }

  lemma {:induction false} RunKeepsInv(calls: seq<Call>, cooldown: int, now: int)
    requires ClockIsMonotone(calls) && cooldown > 0 && NeverEvicts(calls, cooldown)
    requires calls != [] ==> calls[|calls| - 1].now <= now
    ensures Inv(After(calls, cooldown), now, cooldown)
  {
    if calls != [] {
      var n := |calls| - 1;
      RunKeepsInv(calls[..n], cooldown, calls[n].now);
      StepKeepsInv(After(calls[..n], cooldown), calls[n], cooldown);
      InvLasts(After(calls, cooldown), calls[n].now, now, cooldown);
    }
  }

  lemma InvLasts(s: State, before: int, now: int, cooldown: int)
    requires Inv(s, before, cooldown) && before <= now
    ensures Inv(s, now, cooldown)
  {
  }

  ghost predicate SentLately(sent: seq<Entry>, call: Call, cooldown: int) {
    exists i :: 0 <= i < |sent| && sent[i].key == call.message && call.now - sent[i].time < cooldown
  }

  lemma CoolingIsSentLately(s: State, call: Call, cooldown: int)
    requires Inv(s, call.now, cooldown) && call.now > 0
    ensures IsCooling(s.cache, call.message, call.now, cooldown) <==> SentLately(s.sent, call, cooldown)
  {
    LookupIsEntry(s.cache, call.message);
    if IsCooling(s.cache, call.message, call.now, cooldown) {
      var sent := Entry(call.message, Lookup(s.cache, call.message).value);
      assert sent in s.sent;
      var i :| 0 <= i < |s.sent| && s.sent[i] == sent;
    } else {
      forall i | 0 <= i < |s.sent| && s.sent[i].key == call.message
        ensures call.now - s.sent[i].time >= cooldown
      {
        assert s.sent[i] in s.sent;
      }
    }
  }

  /** As long as nothing cooling down was dropped, a call is held back exactly when its message was sent less than a
      cooldown ago; every other call goes through. */
  lemma ThrottledExactly(calls: seq<Call>, cooldown: int, call: Call)
    requires ClockIsMonotone(calls + [call]) && cooldown > 0 && NeverEvicts(calls, cooldown)
    ensures After(calls + [call], cooldown).sent ==
      if SentLately(After(calls, cooldown).sent, call, cooldown) then After(calls, cooldown).sent
      else After(calls, cooldown).sent + [Entry(call.message, call.now)]
  {
    assert (calls + [call])[..|calls|] == calls && (calls + [call])[|calls|] == call;
    ClockOfPrefix(calls, call);
    RunKeepsInv(calls, cooldown, call.now);
    CoolingIsSentLately(After(calls, cooldown), call, cooldown);
  }

  lemma ClockOfPrefix(calls: seq<Call>, call: Call)
    requires ClockIsMonotone(calls + [call])
    ensures ClockIsMonotone(calls) && call.now > 0 && (calls != [] ==> calls[|calls| - 1].now <= call.now)
  {
    var longer := calls + [call];
    assert forall i :: 0 <= i < |calls| ==> longer[i] == calls[i];
    assert longer[|calls|] == call;
    assert calls != [] ==> longer[|calls| - 1].now <= longer[|calls|].now;
  }

  lemma InvCannotRepeat(s: State, now: int, cooldown: int)
    requires Inv(s, now, cooldown)
    ensures CannotRepeat(s, now, cooldown)
  {
    forall message: string
      ensures IsSpaced(Next(s, Call(message, now), cooldown).sent, cooldown)
    {
      if !IsCooling(s.cache, message, now, cooldown) {
        NextIsSpaced(s, Call(message, now), cooldown);
      }
    }
  }

  /** The message of a dropped entry is let through again. */
  lemma EvictedCanRepeat(s: State, call: Call, cooldown: int)
    requires Inv(s, call.now, cooldown) && Evicts(s, call, cooldown)
    ensures !CannotRepeat(Next(s, call, cooldown), call.now, cooldown)
  {
    var recent, t := Recent(s.cache, call.now, cooldown), Next(s, call, cooldown);
    var first := recent[0];
    RecentShrinks(s.cache, call.now, cooldown);
    RecentKeepsKeysDistinct(s.cache, call.now, cooldown);
    assert first in recent && first in s.sent;
    KeysWereSent(s, call, cooldown);
    KeysAtMost(recent[1..]);
    LookupMatchesKeys(recent[1..], first.key);
    LookupAfterPut(recent[1..], call.message, call.now, first.key);
    assert !IsCooling(t.cache, first.key, call.now, cooldown);
    RepeatIsNotSpaced(t, first, call.now, cooldown);
  }

  lemma RepeatIsNotSpaced(t: State, sent: Entry, now: int, cooldown: int)
    requires sent in t.sent && now - sent.time < cooldown && !IsCooling(t.cache, sent.key, now, cooldown)
    ensures !CannotRepeat(t, now, cooldown)
  {
    var after := Next(t, Call(sent.key, now), cooldown);
    var i :| 0 <= i < |t.sent| && t.sent[i] == sent;
    assert after.sent[i] == sent && after.sent[|t.sent|] == Entry(sent.key, now);
    assert !IsSpaced(after.sent, cooldown);
  }

  /** Over a whole run, no message can be let through twice within a cooldown, now or by the next call, exactly when no
      call takes the evicting branch. */
  lemma {:induction false} CannotRepeatExactly(calls: seq<Call>, cooldown: int)
    requires ClockIsMonotone(calls) && cooldown > 0
    ensures CannotRepeatThroughout(calls, cooldown) <==> NeverEvicts(calls, cooldown)
  {
    if calls != [] {
      var n := |calls| - 1;
      var s := After(calls[..n], cooldown);
      CannotRepeatExactly(calls[..n], cooldown);
      if NeverEvicts(calls[..n], cooldown) {
        RunKeepsInv(calls[..n], cooldown, calls[n].now);
        if Evicts(s, calls[n], cooldown) {
          EvictedCanRepeat(s, calls[n], cooldown);
        } else {
          StepKeepsInv(s, calls[n], cooldown);
          InvCannotRepeat(After(calls, cooldown), calls[n].now, cooldown);
        }
      }
    }
  }

  lemma {:induction false} CalmNeverEvicts(calls: seq<Call>, cooldown: int)
    requires ClockIsMonotone(calls) && cooldown > 0 && IsCalm(After(calls, cooldown).sent, cooldown)
    ensures NeverEvicts(calls, cooldown)
  {
    if calls != [] {
      var n := |calls| - 1;
      var s, call := After(calls[..n], cooldown), calls[n];
      if !IsCooling(s.cache, call.message, call.now, cooldown) {
        CalmPrefix(s.sent, Entry(call.message, call.now), cooldown);
        CalmNeverEvicts(calls[..n], cooldown);
        RunKeepsInv(calls[..n], cooldown, call.now);
        SweepSuffices(s, call, cooldown);
      } else {
        CalmNeverEvicts(calls[..n], cooldown);
      }
    }
  }

  /** As long as no cooldown window sees more different messages than the cache holds, two sends of the same message are
      at least a cooldown apart. */
  lemma SameMessageIsSpaced(calls: seq<Call>, cooldown: int)
    requires ClockIsMonotone(calls) && IsCalm(After(calls, cooldown).sent, cooldown)
    ensures IsSpaced(After(calls, cooldown).sent, cooldown)
  {
    if calls == [] {
      return;
    }
    var now := calls[|calls| - 1].now;
    if cooldown <= 0 {
      SentInOrder(calls, cooldown, now);
    } else {
      CalmNeverEvicts(calls, cooldown);
      RunKeepsInv(calls, cooldown, now);
    }
  }

  ghost predicate InOrderUpTo(sent: seq<Entry>, now: int) {
    && (forall i, j :: 0 <= i < j < |sent| ==> sent[i].time <= sent[j].time)
    && (forall i :: 0 <= i < |sent| ==> sent[i].time <= now)
  }

  lemma {:induction false} SentInOrder(calls: seq<Call>, cooldown: int, now: int)
    requires ClockIsMonotone(calls) && forall i :: 0 <= i < |calls| ==> calls[i].now <= now
    ensures InOrderUpTo(After(calls, cooldown).sent, now)
  {
    if calls != [] {
      var n := |calls| - 1;
      SentInOrder(calls[..n], cooldown, calls[n].now);
    }
  }

  // ---- What is forgotten ----

  /** A message cooling down is forgotten by a call with another message exactly when that call is let through, the
      sweep drops nothing from a full cache, and the message is its first and not empty. */
  lemma ForgottenExactly(cache: seq<Entry>, message: string, k: string, now: int, cooldown: int)
    requires |cache| <= CACHE_MAX_SIZE && |Keys(cache)| == |cache|
    requires IsCooling(cache, k, now, cooldown) && k != message
    ensures !IsCooling(CacheAfter(cache, message, now, cooldown), k, now, cooldown) <==>
      && !IsCooling(cache, message, now, cooldown)
      && |Recent(cache, now, cooldown)| == CACHE_MAX_SIZE && cache[0].key == k != ""
  {
    var recent, room := Recent(cache, now, cooldown), MadeRoom(cache, now, cooldown);
    RecentShrinks(cache, now, cooldown);
    LookupAfterSweep(cache, now, cooldown, k);
    LookupAfterPut(room, message, now, k);
    if |recent| == CACHE_MAX_SIZE {
      AllRecent(cache, now, cooldown);
      KeysAtMost(cache[1..]);
      LookupMatchesKeys(cache[1..], k);
    }
  }

  lemma {:induction false} NothingSwept(cache: seq<Entry>, now: int, cooldown: int)
    requires forall e :: e in cache ==> now - e.time < cooldown
    ensures Recent(cache, now, cooldown) == cache
  {
    if cache != [] {
      NothingSwept(cache[1..], now, cooldown);
    }
  }

  // ---- A run that forgets ----

  /** Messages that all differ. */
  function Message(i: nat): string {
    seq(i + 1, _ => 'x')
  }

  function Burst(n: nat): seq<Call> {
    seq(n, i requires 0 <= i < n => Call(Message(i), 1))
  }

  function Filled(n: nat): seq<Entry> {
    seq(n, i requires 0 <= i < n => Entry(Message(i), 1))
  }

  lemma NewMessage(entries: seq<Entry>, n: nat)
    requires forall e :: e in entries ==> |e.key| != n + 1
    ensures Lookup(entries, Message(n)) == None
    ensures Put(entries, Message(n), 1) == entries + [Entry(Message(n), 1)]
  {
    LookupIsEntry(entries, Message(n));
    assert Lookup(entries, Message(n)).Some? ==> |Entry(Message(n), Lookup(entries, Message(n)).value).key| == n + 1;
    assert forall j :: 0 <= j < |entries| ==> entries[j] in entries;
    PutPlace(entries, |entries|, Message(n), 1);
  }

  lemma {:induction false} BurstFills(n: nat, cooldown: int)
    requires n <= CACHE_MAX_SIZE
    ensures After(Burst(n), cooldown) == State(Filled(n), Filled(n))
  {
    if n > 0 {
      assert Burst(n)[..n - 1] == Burst(n - 1);
      BurstFills(n - 1, cooldown);
      NewMessage(Filled(n - 1), n - 1);
      assert Filled(n) == Filled(n - 1) + [Entry(Message(n - 1), 1)];
    }
  }

  lemma BurstOverflows(n: nat, cooldown: int)
    requires n == CACHE_MAX_SIZE && cooldown > 0
    ensures After(Burst(n + 1), cooldown) == State(Filled(n)[1..] + [Entry(Message(n), 1)], Filled(n + 1))
  {
    var filled := Filled(n);
    assert Burst(n + 1)[..n] == Burst(n) && Burst(n + 1)[n] == Call(Message(n), 1);
    BurstFills(n, cooldown);
    FullCacheRotates(filled, n, cooldown);
    assert Filled(n + 1) == filled + [Entry(Message(n), 1)];
  }

  lemma FullCacheRotates(filled: seq<Entry>, n: nat, cooldown: int)
    requires |filled| == n == CACHE_MAX_SIZE && cooldown > 0
    requires forall e :: e in filled ==> e.time == 1 && 0 < |e.key| < n + 1
    ensures !IsCooling(filled, Message(n), 1, cooldown)
    ensures CacheAfter(filled, Message(n), 1, cooldown) == filled[1..] + [Entry(Message(n), 1)]
  {
    NothingSwept(filled, 1, cooldown);
    NewMessage(filled, n);
    NewMessage(filled[1..], n);
    assert filled[0] in filled;
  }

  /** One different message more than the cache holds, and the first again, all at once: the first is sent twice. */
  lemma BurstIsNotSpaced(cooldown: int) returns (calls: seq<Call>)
    requires cooldown > 0
    ensures ClockIsMonotone(calls) && !IsSpaced(After(calls, cooldown).sent, cooldown)
  {
    var n: nat :| n == CACHE_MAX_SIZE;
    var burst := Burst(n + 1);
    var s := After(burst, cooldown);
    calls := burst + [Call(Message(0), 1)];
    assert calls[..|burst|] == burst;
    BurstOverflows(n, cooldown);
    NewMessage(s.cache, 0);
    FirstSentTwice(s.sent, Message(0), cooldown);
  }

  lemma FirstSentTwice(sent: seq<Entry>, key: string, cooldown: int)
    requires cooldown > 0 && sent != [] && sent[0] == Entry(key, 1)
    ensures !IsSpaced(sent + [Entry(key, 1)], cooldown)
  {
    var longer := sent + [Entry(key, 1)];
    assert longer[0] == longer[|sent|] == Entry(key, 1);
  }
}
