/** The cooldown cache in front of the Slack channel: a map in insertion order, bounded in size. */
module SlackThrottle {
  import opened Options

  const CACHE_MAX_SIZE := 100

  /** A message with the time it was last sent. */
  datatype Entry = Entry(key: string, time: int)

  function Lookup(cache: seq<Entry>, key: string): Option<int> {
    if cache == [] then None
    else if cache[0].key == key then Some(cache[0].time)
    else Lookup(cache[1..], key)
  }

  /** Setting a known key keeps its place; a new one goes to the end. */
  function Put(cache: seq<Entry>, key: string, time: int): seq<Entry> {
    if cache == [] then [Entry(key, time)]
    else if cache[0].key == key then [Entry(key, time)] + cache[1..]
    else [cache[0]] + Put(cache[1..], key, time)
  }

  /** The entries still cooling down. */
  function Recent(cache: seq<Entry>, now: int, cooldown: int): seq<Entry> {
    if cache == [] then []
    else
      var rest := Recent(cache[1..], now, cooldown);
      if now - cache[0].time >= cooldown then rest else [cache[0]] + rest
  }

  /** A time of zero reads as absent. */
  predicate IsCooling(cache: seq<Entry>, message: string, now: int, cooldown: int) {
    var lastSent := Lookup(cache, message);
    lastSent.Some? && lastSent.value != 0 && now - lastSent.value < cooldown
  }

  /** Room for one more: when full, sweep, and when still full drop the first entry, unless its key is empty. */
  function Evicted(cache: seq<Entry>): seq<Entry> {
    if |cache| >= CACHE_MAX_SIZE && cache[0].key != "" then cache[1..] else cache
  }

  function MadeRoom(cache: seq<Entry>, now: int, cooldown: int): seq<Entry> {
    if |cache| >= CACHE_MAX_SIZE then Evicted(Recent(cache, now, cooldown)) else cache
  }

  function CacheAfter(cache: seq<Entry>, message: string, now: int, cooldown: int): seq<Entry> {
    if IsCooling(cache, message, now, cooldown) then cache else Put(MadeRoom(cache, now, cooldown), message, now)
  }

  ghost predicate IsFirstOf(cache: seq<Entry>, i: int, key: string) {
    0 <= i < |cache| && cache[i].key == key && forall j :: 0 <= j < i ==> cache[j].key != key
  }

  /** Looking a key up finds its first entry. */
  lemma {:induction false} LookupPlace(cache: seq<Entry>, key: string)
    ensures forall i :: IsFirstOf(cache, i, key) ==> Lookup(cache, key) == Some(cache[i].time)
    ensures Lookup(cache, key).Some? ==> exists i :: IsFirstOf(cache, i, key)
  {
    if cache != [] {
      var rest := cache[1..];
      LookupPlace(rest, key);
      if cache[0].key == key {
        assert IsFirstOf(cache, 0, key);
      } else {
        forall i | IsFirstOf(cache, i, key)
          ensures Lookup(cache, key) == Some(cache[i].time)
        {
          assert IsFirstOf(rest, i - 1, key);
        }
        if i :| IsFirstOf(rest, i, key) {
          assert IsFirstOf(cache, i + 1, key);
        }
      }
    }
  }

  class SlackTransport {
    const cooldownMs: int
    var sentErrorsCache: seq<Entry>

    constructor (cooldownMs: int)
      ensures this.cooldownMs == cooldownMs && sentErrorsCache == []
    {
      this.cooldownMs := cooldownMs;
      sentErrorsCache := [];
    }

    method Sweep(now: int)
      modifies this`sentErrorsCache
      ensures sentErrorsCache == Recent(old(sentErrorsCache), now, cooldownMs)
    {
      var i := 0;
      while i < |sentErrorsCache|
        invariant 0 <= i <= |sentErrorsCache|
        invariant Recent(old(sentErrorsCache), now, cooldownMs)
               == sentErrorsCache[..i] + Recent(sentErrorsCache[i..], now, cooldownMs)
        decreases |sentErrorsCache| - i
      {
        ghost var cache := sentErrorsCache;
        assert cache[i..][1..] == cache[i + 1..];
        if now - sentErrorsCache[i].time >= cooldownMs {
          sentErrorsCache := sentErrorsCache[..i] + sentErrorsCache[i + 1..];
          assert sentErrorsCache[..i] == cache[..i] && sentErrorsCache[i..] == cache[i + 1..];
        } else {
          assert cache[..i] + ([cache[i]] + Recent(cache[i + 1..], now, cooldownMs))
              == cache[..i + 1] + Recent(cache[i + 1..], now, cooldownMs);
          i := i + 1;
        }
      }
      assert sentErrorsCache[i..] == [];
    }

    method Set(key: string, time: int)
      modifies this`sentErrorsCache
      ensures sentErrorsCache == Put(old(sentErrorsCache), key, time)
    {
      for i := 0 to |sentErrorsCache|
        invariant sentErrorsCache == old(sentErrorsCache)
        invariant forall j :: 0 <= j < i ==> sentErrorsCache[j].key != key
      {
        PutPlace(sentErrorsCache, i, key, time);
        if sentErrorsCache[i].key == key {
          sentErrorsCache := sentErrorsCache[i := Entry(key, time)];
          return;
        }
      }
      PutPlace(sentErrorsCache, |sentErrorsCache|, key, time);
      sentErrorsCache := sentErrorsCache + [Entry(key, time)];
    }

    method ShouldThrottle(errorMessage: string, now: int) returns (throttled: bool)
      modifies this`sentErrorsCache
      ensures throttled == IsCooling(old(sentErrorsCache), errorMessage, now, cooldownMs)
      ensures throttled <==>
        exists i :: (
          && IsFirstOf(old(sentErrorsCache), i, errorMessage) && old(sentErrorsCache)[i].time != 0
          && now - old(sentErrorsCache)[i].time < cooldownMs)
      ensures sentErrorsCache == CacheAfter(old(sentErrorsCache), errorMessage, now, cooldownMs)
    {
      LookupPlace(sentErrorsCache, errorMessage);
      var lastSent := Lookup(sentErrorsCache, errorMessage);
      if lastSent.Some? && lastSent.value != 0 && now - lastSent.value < cooldownMs {
        return true;
      }
      if |sentErrorsCache| >= CACHE_MAX_SIZE {
        Sweep(now);
        if |sentErrorsCache| >= CACHE_MAX_SIZE {
          var oldestKey := sentErrorsCache[0].key;
          if oldestKey != "" {
            sentErrorsCache := sentErrorsCache[1..];
          }
        }
      }
      Set(errorMessage, now);
      throttled := false;
    }
  }

  lemma {:induction false} PutPlace(cache: seq<Entry>, i: nat, key: string, time: int)
    requires i <= |cache| && forall j :: 0 <= j < i ==> cache[j].key != key
    ensures i == |cache| ==> Put(cache, key, time) == cache + [Entry(key, time)]
    ensures i < |cache| && cache[i].key == key ==> Put(cache, key, time) == cache[i := Entry(key, time)]
  {
    if i > 0 {
      PutPlace(cache[1..], i - 1, key, time);
    }
  }

  // ---- Runs ----

  datatype Call = Call(message: string, now: int)

  /** The cache, and every message let through with its time. */
  datatype State = State(cache: seq<Entry>, sent: seq<Entry>)

  function Next(s: State, call: Call, cooldown: int): State {
    State(CacheAfter(s.cache, call.message, call.now, cooldown),
          if IsCooling(s.cache, call.message, call.now, cooldown) then s.sent
          else s.sent + [Entry(call.message, call.now)])
  }

  function After(calls: seq<Call>, cooldown: int): State {
    if calls == [] then State([], [])
    else Next(After(calls[..|calls| - 1], cooldown), calls[|calls| - 1], cooldown)
  }

  ghost predicate ClockIsMonotone(calls: seq<Call>) {
    && (forall i :: 0 <= i < |calls| ==> calls[i].now > 0)
    && (forall i, j :: 0 <= i < j < |calls| ==> calls[i].now <= calls[j].now)
  }

  // ---- The size ----

  lemma {:induction false} PutGrows(cache: seq<Entry>, key: string, time: int)
    ensures |Put(cache, key, time)| == |cache| + if Lookup(cache, key).Some? then 0 else 1
    ensures Keys(Put(cache, key, time)) == Keys(cache) + {key}
  {
    if cache != [] && cache[0].key != key {
      PutGrows(cache[1..], key, time);
    }
  }

  function Keys(cache: seq<Entry>): set<string> {
    if cache == [] then {} else {cache[0].key} + Keys(cache[1..])
  }

  lemma {:induction false} RecentShrinks(cache: seq<Entry>, now: int, cooldown: int)
    ensures |Recent(cache, now, cooldown)| <= |cache|
    ensures Keys(Recent(cache, now, cooldown)) <= Keys(cache)
    ensures forall e :: e in Recent(cache, now, cooldown) <==> e in cache && now - e.time < cooldown
  {
    if cache != [] {
      RecentShrinks(cache[1..], now, cooldown);
    }
  }

  /** The cache never exceeds its maximum as long as messages are not empty. */
  lemma {:induction false} CacheIsBounded(calls: seq<Call>, cooldown: int)
    requires forall i :: 0 <= i < |calls| ==> calls[i].message != ""
    ensures |After(calls, cooldown).cache| <= 100
    ensures "" !in Keys(After(calls, cooldown).cache)
  {
    if calls != [] {
      var n := |calls| - 1;
      var s, call := After(calls[..n], cooldown), calls[n];
      CacheIsBounded(calls[..n], cooldown);
      RecentShrinks(s.cache, call.now, cooldown);
      PutGrows(MadeRoom(s.cache, call.now, cooldown), call.message, call.now);
    }
  }

  /** One call takes a full cache over its maximum exactly when the sweep drops nothing and the first key is empty. */
  lemma OverflowsExactly(cache: seq<Entry>, message: string, now: int, cooldown: int)
    requires |cache| <= CACHE_MAX_SIZE
    requires forall e :: e in cache ==> e.time > 0
    ensures |CacheAfter(cache, message, now, cooldown)| > CACHE_MAX_SIZE <==>
      && !IsCooling(cache, message, now, cooldown)
      && |Recent(cache, now, cooldown)| == CACHE_MAX_SIZE && Recent(cache, now, cooldown)[0].key == ""
  {
    var recent := Recent(cache, now, cooldown);
    RecentShrinks(cache, now, cooldown);
    PutGrows(MadeRoom(cache, now, cooldown), message, now);
    if !IsCooling(cache, message, now, cooldown) && |recent| == CACHE_MAX_SIZE {
      AllRecent(cache, now, cooldown);
      LookupIsEntry(cache, message);
    }
  }

  lemma {:induction false} AllRecent(cache: seq<Entry>, now: int, cooldown: int)
    requires |Recent(cache, now, cooldown)| == |cache|
    ensures Recent(cache, now, cooldown) == cache
  {
    if cache != [] {
      RecentShrinks(cache[1..], now, cooldown);
      AllRecent(cache[1..], now, cooldown);
    }
  }

  lemma {:induction false} LookupIsEntry(cache: seq<Entry>, key: string)
    ensures match Lookup(cache, key)
            case Some(time) => Entry(key, time) in cache
            case None => key !in Keys(cache)
  {
    if cache != [] {
      LookupIsEntry(cache[1..], key);
    }
  }
}
