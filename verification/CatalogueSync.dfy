/** The paged full sync: accept what the plan's limit allows, upsert page by page, then hide what was not seen.

    A page reply is a parameter; `syncedAt` gives the time of each page's bulk write.  No other writer runs. */
module CatalogueSync {
  import opened Options
  import opened Catalogue
  import opened Sequences

  const SALLA := "salla"
  const UNLIMITED := -1

  /** A listed product, as the mapper reads it; `None` when mapping it throws. */
  type Item = Option<Payload>

  datatype PageReply = PageFailed(error: string) | Page(items: seq<Item>, totalPages: nat)

  predicate Fits(limit: int, usage: nat, slots: nat) {
    limit == UNLIMITED || usage + slots <= limit
  }

  /** The greedy prefix: mappable items in order, up to the first that does not fit. */
  function Greedy(items: seq<Item>, limit: int, usage: nat): seq<Payload> {
    if items == [] then []
    else
      match items[0]
      case None => Greedy(items[1..], limit, usage)
      case Some(payload) =>
        if Fits(limit, usage, PayloadSlots(payload))
        then [payload] + Greedy(items[1..], limit, usage + PayloadSlots(payload))
        else []
  }

  /** The items that can be mapped, in order. */
  function Mappable(items: seq<Item>): seq<Payload> {
    if items == [] then []
    else (if items[0].Some? then [items[0].value] else []) + Mappable(items[1..])
  }

  /** Everything for an unlimited plan; for a limited one, a prefix that fits and stops only before an item that does
      not. */
  ghost predicate IsAllThatFits(taken: seq<Payload>, mappable: seq<Payload>, limit: int, usage: nat) {
    && |taken| <= |mappable| && taken == mappable[..|taken|]
    && (limit == -1 ==> taken == mappable)
    && (limit != -1 && taken != [] ==> usage + SlotsOf(taken) <= limit)
    && (limit != -1 && |taken| < |mappable| ==>
          usage + SlotsOf(taken) + PayloadSlots(mappable[|taken|]) > limit)
  }

  lemma {:induction false} GreedyIsAllThatFits(items: seq<Item>, limit: int, usage: nat)
    ensures IsAllThatFits(Greedy(items, limit, usage), Mappable(items), limit, usage)
  {
    if items != [] {
      var first, after := items[0], Mappable(items[1..]);
      if first.None? {
        assert Mappable(items) == after;
        GreedyIsAllThatFits(items[1..], limit, usage);
      } else {
        assert Mappable(items) == [first.value] + after;
        var slots := PayloadSlots(first.value);
        if limit == -1 || usage + slots <= limit {
          var rest := Greedy(items[1..], limit, usage + slots);
          GreedyIsAllThatFits(items[1..], limit, usage + slots);
          OneMoreFits(first.value, rest, after, limit, usage);
        } else {
          NothingFits(first.value, after, limit, usage);
        }
      }
    }
  }

  lemma NothingFits(payload: Payload, after: seq<Payload>, limit: int, usage: nat)
    requires limit != -1 && usage + PayloadSlots(payload) > limit
    ensures IsAllThatFits([], [payload] + after, limit, usage)
  {
  }

  lemma OneMoreFits(payload: Payload, rest: seq<Payload>, after: seq<Payload>, limit: int, usage: nat)
    requires IsAllThatFits(rest, after, limit, usage + PayloadSlots(payload))
    requires limit != -1 ==> usage + PayloadSlots(payload) <= limit
    ensures IsAllThatFits([payload] + rest, [payload] + after, limit, usage)
  {
    assert ([payload] + rest)[1..] == rest;
    assert ([payload] + after)[..|rest| + 1] == [payload] + after[..|rest|];
  }

  function SlotsOf(payloads: seq<Payload>): nat {
    if payloads == [] then 0 else PayloadSlots(payloads[0]) + SlotsOf(payloads[1..])
  }

  /** The pages one after the other from page `i` on, as far as the replies lead: each names the last page, and a failed
      fetch ends the sync. */
  function ItemsFrom(pages: seq<PageReply>, i: nat): seq<Item>
    requires i < |pages| && PagesExist(pages)
    decreases |pages| - i
  {
    if pages[i].PageFailed? then []
    else pages[i].items + (if i + 1 < pages[i].totalPages then ItemsFrom(pages, i + 1) else [])
  }

  /** The listing serves every page it announces. */
  predicate PagesExist(pages: seq<PageReply>) {
    forall i :: 0 <= i < |pages| && pages[i].Page? ==> pages[i].totalPages <= |pages|
  }

  /** The pages read are those up to the first that failed or named itself the last; their items are read in order. */
  lemma {:induction false} ItemsAreOfPagesRead(pages: seq<PageReply>, i: nat) returns (n: nat)
    requires i < |pages| && PagesExist(pages)
    ensures i < n <= |pages| || (i == n && pages[i].PageFailed?)
    ensures forall j :: i <= j < n ==> pages[j].Page?
    ensures forall j :: i <= j < n - 1 ==> j + 1 < pages[j].totalPages
    ensures n > i ==> pages[n - 1].totalPages <= n || (n < |pages| && pages[n].PageFailed?)
    ensures ItemsFrom(pages, i) == AllItems(pages[i..n])
    decreases |pages| - i
  {
    n := i;
    if pages[i].Page? {
      if i + 1 < pages[i].totalPages {
        n := ItemsAreOfPagesRead(pages, i + 1);
        assert pages[i..n][1..] == pages[i + 1..n];
      } else {
        n := i + 1;
        assert pages[i..n] == [pages[i]];
        assert AllItems([pages[i]]) == pages[i].items + AllItems([]);
      }
    }
  }

  lemma {:induction false} FullAcceptsNothing(items: seq<Item>, limit: int, usage: nat)
    requires limit != UNLIMITED && usage >= limit
    ensures Greedy(items, limit, usage) == []
  {
    if items != [] {
      FullAcceptsNothing(items[1..], limit, usage);
    }
  }

  lemma {:induction false} GreedyFits(items: seq<Item>, limit: int, usage: nat)
    requires limit != UNLIMITED
    ensures var accepted := Greedy(items, limit, usage);
      accepted == [] || usage + SlotsOf(accepted) <= limit
  {
    if items != [] {
      match items[0] {
        case None => GreedyFits(items[1..], limit, usage);
        case Some(payload) =>
          if Fits(limit, usage, PayloadSlots(payload)) {
            var rest := Greedy(items[1..], limit, usage + PayloadSlots(payload));
            GreedyFits(items[1..], limit, usage + PayloadSlots(payload));
            assert ([payload] + rest)[1..] == rest;
          }
      }
    }
  }

  lemma {:induction false} SlotsOfConcat(a: seq<Payload>, b: seq<Payload>)
    ensures SlotsOf(a + b) == SlotsOf(a) + SlotsOf(b)
  {
    if a == [] {
      assert a + b == b;
    } else {
      SlotsOfConcat(a[1..], b);
      assert (a + b)[1..] == a[1..] + b;
    }
  }

  function Payloads(writes: seq<Write>): seq<Payload> {
    if writes == [] then [] else Payloads(writes[..|writes| - 1]) + [writes[|writes| - 1].payload]
  }

  // ---- The loop ----

  /** One page: the payloads taken from it, the usage after it, and whether the limit was reached. */
  method AcceptPage(items: seq<Item>, limit: int, usage: nat, ghost rest: seq<Item>)
    returns (accepted: seq<Payload>, newUsage: nat, limitReached: bool)
    ensures newUsage == usage + SlotsOf(accepted)
    ensures Greedy(items + rest, limit, usage)
         == accepted + (if limitReached then [] else Greedy(rest, limit, newUsage))
  {
    accepted, newUsage, limitReached := [], usage, false;
    assert items[0..] == items;
    for j := 0 to |items|
      invariant !limitReached
      invariant newUsage == usage + SlotsOf(accepted)
      invariant Greedy(items + rest, limit, usage) == accepted + Greedy(items[j..] + rest, limit, newUsage)
    {
      var remaining := items[j..] + rest;
      assert remaining[0] == items[j] && remaining[1..] == items[j + 1..] + rest;
      if limit != UNLIMITED && newUsage >= limit {
        FullAcceptsNothing(remaining, limit, newUsage);
        limitReached := true;
        return;
      }
      if items[j].None? {
        continue;
      }
      var payload := items[j].value;
      var variantsCount := PayloadSlots(payload);
      if limit != UNLIMITED && newUsage + variantsCount > limit {
        limitReached := true;
        return;
      }
      SlotsOfConcat(accepted, [payload]);
      assert accepted + ([payload] + Greedy(remaining[1..], limit, newUsage + variantsCount))
          == (accepted + [payload]) + Greedy(remaining[1..], limit, newUsage + variantsCount);
      accepted := accepted + [payload];
      newUsage := newUsage + variantsCount;
    }
    assert items[|items|..] + rest == rest;
  }

  /** Where the loop stands on its way to `goal`: what was written so far, and what is still to come. */
  ghost predicate InStep(
    goal: seq<Payload>, limit: int, startUsage: nat, writes: seq<Write>, usage: nat, toCome: seq<Item>, open: bool)
  {
    && usage == startUsage + SlotsOf(Payloads(writes))
    && goal == Payloads(writes) + (if open then Greedy(toCome, limit, usage) else [])
  }

  /** What is still to come once the loop has decided whether to go on. */
  function Rest(pages: seq<PageReply>, page: nat, more: bool): seq<Item>
    requires PagesExist(pages) && (more ==> page < |pages|)
  {
    if more then ItemsFrom(pages, page) else []
  }

  lemma StepTaken(
    goal: seq<Payload>, limit: int, startUsage: nat, writes: seq<Write>, usage: nat, items: seq<Item>,
    rest: seq<Item>, accepted: seq<Payload>, newUsage: nat, at: int, limitReached: bool)
    requires InStep(goal, limit, startUsage, writes, usage, items + rest, true)
    requires newUsage == usage + SlotsOf(accepted)
    requires Greedy(items + rest, limit, usage)
          == accepted + (if limitReached then [] else Greedy(rest, limit, newUsage))
    ensures InStep(goal, limit, startUsage, writes + Writes(accepted, at), newUsage, rest, !limitReached)
  {
    WritesAdded(writes, accepted, at);
    SlotsOfConcat(Payloads(writes), accepted);
    Assoc(Payloads(writes), accepted, if limitReached then [] else Greedy(rest, limit, newUsage));
  }

  /** Once the limit is reached what is to come plays no part. */
  lemma StoppedNeedsNoRest(
    goal: seq<Payload>, limit: int, startUsage: nat, writes: seq<Write>, usage: nat, rest: seq<Item>, stopped: bool)
    requires InStep(goal, limit, startUsage, writes, usage, rest, !stopped)
    ensures stopped ==> InStep(goal, limit, startUsage, writes, usage, [], !stopped)
  {
  }

  lemma NothingToCome(
    goal: seq<Payload>, limit: int, startUsage: nat, writes: seq<Write>, usage: nat, toCome: seq<Item>, open: bool)
    requires InStep(goal, limit, startUsage, writes, usage, toCome, open) && toCome == []
    ensures Payloads(writes) == goal && usage == startUsage + SlotsOf(goal)
  {
  }

  lemma WrittenSinceConcat(a: seq<Write>, b: seq<Write>, at: int, start: int)
    requires WrittenSince(a, start) && WrittenSince(b, at) && at >= start
    ensures WrittenSince(a + b, start)
  {
  }

  /** Whether the store is linked, and what asking for its token gave. */
  datatype Access = NotLinked | TokenRefused(error: string) | Granted

  class SallaProductSyncConsumer {
    const repository: ProductsRepository
    var lastSyncAt: Option<int>   // on the integration

    constructor (repository: ProductsRepository)
      ensures this.repository == repository && lastSyncAt == None
    {
      this.repository, lastSyncAt := repository, None;
    }

    /** One page that was fetched: its accepted items are upserted.  Answers whether the limit was reached and whether
        the listing goes on. */
    method SyncPage(
      ghost goal: seq<Payload>, ghost pages: seq<PageReply>, response: PageReply, page: nat, limit: int,
      ghost startUsage: nat, ghost writes: seq<Write>, usage: nat, at: int)
      returns (added: seq<Write>, newUsage: nat, limitReached: bool, continues: bool)
      requires pages != [] && PagesExist(pages) && page < |pages| && response == pages[page] && response.Page?
      requires InStep(goal, limit, startUsage, writes, usage, Rest(pages, page, true), true)
      modifies repository
      ensures continues ==> page + 1 < |pages|
      ensures InStep(goal, limit, startUsage, writes + added, newUsage,
                     Rest(pages, page + 1, !limitReached && continues), !limitReached)
      ensures WrittenSince(added, at)
      ensures repository.rows == UpsertedAll(old(repository.rows), added)
    {
      continues := page + 1 < response.totalPages;
      ghost var rest := Rest(pages, page + 1, continues);
      var accepted;
      accepted, newUsage, limitReached := AcceptPage(response.items, limit, usage, rest);
      StepTaken(goal, limit, startUsage, writes, usage, response.items, rest, accepted, newUsage, at, limitReached);
      StoppedNeedsNoRest(goal, limit, startUsage, writes + Writes(accepted, at), newUsage, rest, limitReached);
      repository.BulkUpsert(accepted, at);
      added := Writes(accepted, at);
    }

    /** The page loop.  `writes` lists the upserts made, with their times; a failed page fetch leaves them in place. */
    method SyncPages(limit: int, startUsage: nat, syncedAt: nat -> int, pages: seq<PageReply>, ghost since: int)
      returns (failure: Option<string>, writes: seq<Write>, currentUsage: nat)
      requires pages != [] && PagesExist(pages)
      requires forall page: nat :: syncedAt(page) >= since
      modifies repository
      ensures Payloads(writes) == Greedy(ItemsFrom(pages, 0), limit, startUsage)
      ensures IsAllThatFits(Payloads(writes), Mappable(ItemsFrom(pages, 0)), limit, startUsage)
      ensures currentUsage == startUsage + SlotsOf(Payloads(writes))
      ensures WrittenSince(writes, since)
      ensures repository.rows == UpsertedAll(old(repository.rows), writes)
      ensures failure.Some? ==> exists i :: 0 <= i < |pages| && pages[i] == PageFailed(failure.value)
    {
      currentUsage, writes := startUsage, [];
      ghost var goal := Greedy(ItemsFrom(pages, 0), limit, startUsage);
      GreedyIsAllThatFits(ItemsFrom(pages, 0), limit, startUsage);
      var page: nat := 0;
      var more, limitReached := true, false;
      while more
        invariant more ==> page < |pages| && !limitReached
        invariant InStep(goal, limit, startUsage, writes, currentUsage, Rest(pages, page, more), !limitReached)
        invariant WrittenSince(writes, since)
        invariant repository.rows == UpsertedAll(old(repository.rows), writes)
        decreases more, |pages| - page
      {
        var response := pages[page];
        if response.PageFailed? {
          NothingToCome(goal, limit, startUsage, writes, currentUsage, Rest(pages, page, more), !limitReached);
          return Some(response.error), writes, currentUsage;
        }
        var added, continues;
        added, currentUsage, limitReached, continues :=
          SyncPage(goal, pages, response, page, limit, startUsage, writes, currentUsage, syncedAt(page));
        UpsertsConcat(old(repository.rows), writes, added);
        WrittenSinceConcat(writes, added, syncedAt(page), since);
        writes := writes + added;
        more := !limitReached && continues;
        page := page + 1;
      }
      NothingToCome(goal, limit, startUsage, writes, currentUsage, Rest(pages, page, more), !limitReached);
      failure := None;
    }

    /** A store that is not linked is skipped; a refused token or a failed page fetch throws, hides nothing and does not
        stamp the sync. */
    method ProcessFullSync(
      access: Access, limit: int, syncStartedAt: int, syncedAt: nat -> int, syncEndedAt: int, pages: seq<PageReply>)
      returns (result: Result<(), string>, writes: seq<Write>, currentUsage: nat)
      requires pages != [] && PagesExist(pages)
      requires forall page: nat :: syncedAt(page) >= syncStartedAt
      modifies this, repository
      ensures !access.Granted? ==> writes == [] && unchanged(this) && unchanged(repository)
      ensures access.NotLinked? ==> result.Ok?
      ensures access.TokenRefused? ==> result == Err(access.error)
      ensures access.Granted? ==>
        && Payloads(writes) == Greedy(ItemsFrom(pages, 0), limit, Total(old(repository.rows), VisibleSlots))
        && IsAllThatFits(Payloads(writes), Mappable(ItemsFrom(pages, 0)), limit,
                         Total(old(repository.rows), VisibleSlots))
        && currentUsage == Total(old(repository.rows), VisibleSlots) + SlotsOf(Payloads(writes))
        && WrittenSince(writes, syncStartedAt)
        && (result.Err? ==> exists i :: 0 <= i < |pages| && pages[i] == PageFailed(result.error))
        && var upserted := UpsertedAll(old(repository.rows), writes);
        if result.Err? then repository.rows == upserted && lastSyncAt == old(lastSyncAt)
        else repository.rows == StaleHidden(upserted, SALLA, syncStartedAt) && lastSyncAt == Some(syncEndedAt)
    {
      writes, currentUsage := [], 0;
      match access {
        case NotLinked => return Ok(()), writes, currentUsage;
        case TokenRefused(error) => return Err(error), writes, currentUsage;
        case Granted =>
      }
      var startUsage := repository.CountStoreProductsAndVariants();
      var failure;
      failure, writes, currentUsage := SyncPages(limit, startUsage, syncedAt, pages, syncStartedAt);
      if failure.Some? {
        return Err(failure.value), writes, currentUsage;
      }
      var _ := repository.HideStaleSince(SALLA, syncStartedAt);
      lastSyncAt := Some(syncEndedAt);
      result := Ok(());
    }
  }

  predicate WrittenSince(writes: seq<Write>, start: int) {
    forall k :: 0 <= k < |writes| ==> writes[k].at >= start
  }

  lemma {:induction false} WritesAdded(writes: seq<Write>, accepted: seq<Payload>, at: int)
    ensures Payloads(writes + Writes(accepted, at)) == Payloads(writes) + accepted
  {
    if accepted == [] {
      assert writes + Writes(accepted, at) == writes;
    } else {
      var n := |accepted| - 1;
      var longer := writes + Writes(accepted, at);
      WritesAdded(writes, accepted[..n], at);
      assert longer[..|longer| - 1] == writes + Writes(accepted[..n], at);
      Assoc(Payloads(writes), accepted[..n], [accepted[n]]);
      SplitLast(accepted);
    }
  }

  // ---- What a sync leaves behind ----

  /** Page breaks do not matter: two listings of the same items are accepted alike. */
  lemma PageBreaksDoNotMatter(pages: seq<PageReply>, others: seq<PageReply>, limit: int, usage: nat)
    requires pages != [] && CompleteListing(pages) && others != [] && CompleteListing(others)
    requires AllItems(pages) == AllItems(others)
    ensures Greedy(ItemsFrom(pages, 0), limit, usage) == Greedy(ItemsFrom(others, 0), limit, usage)
  {
    CompleteListingIsRead(pages, 0);
    CompleteListingIsRead(others, 0);
    assert pages[0..] == pages && others[0..] == others;
  }

  /** Every page arrives and names the same last page. */
  predicate CompleteListing(pages: seq<PageReply>) {
    forall i :: 0 <= i < |pages| ==> pages[i].Page? && pages[i].totalPages == |pages|
  }

  function AllItems(pages: seq<PageReply>): seq<Item> {
    if pages == [] then [] else (if pages[0].Page? then pages[0].items else []) + AllItems(pages[1..])
  }

  lemma {:induction false} CompleteListingIsRead(pages: seq<PageReply>, i: nat)
    requires CompleteListing(pages) && i < |pages|
    ensures ItemsFrom(pages, i) == AllItems(pages[i..])
    decreases |pages| - i
  {
    assert pages[i..][1..] == pages[i + 1..];
    if i + 1 < |pages| {
      CompleteListingIsRead(pages, i + 1);
    }
  }

  /** A Salla product is visible after the hiding. */
  ghost predicate VisibleSalla(rows: seq<Product>, externalId: string) {
    exists row :: row in rows && IsFor(row, SALLA, externalId) && row.status != Hidden
  }

  /** The last upsert of this product made in the run left it visible. */
  ghost predicate SyncedVisible(writes: seq<Write>, externalId: string) {
    exists i :: IsLast(writes, i) && IsFor(RowOf(writes[i]), SALLA, externalId) && writes[i].payload.status != Hidden
  }

  /** A finished sync leaves visible exactly the Salla products it upserted with a visible status. */
  lemma VisibleIsWhatWasSynced(rows: seq<Product>, writes: seq<Write>, syncStartedAt: int, externalId: string)
    requires Unique(rows)
    requires forall row :: row in rows && row.platform == SALLA ==> row.lastSyncedAt < syncStartedAt
    requires WrittenSince(writes, syncStartedAt)
    ensures VisibleSalla(StaleHidden(UpsertedAll(rows, writes), SALLA, syncStartedAt), externalId) <==>
      SyncedVisible(writes, externalId)
  {
    var upserted := UpsertedAll(rows, writes);
    var after := StaleHidden(upserted, SALLA, syncStartedAt);
    if row :| row in after && IsFor(row, SALLA, externalId) && row.status != Hidden {
      var j :| 0 <= j < |after| && after[j] == row;
      assert row == upserted[j] && row in upserted;
      UpsertedAllRows(rows, writes, row);
      var i :| IsLast(writes, i) && row == RowOf(writes[i]);
      assert SyncedVisible(writes, externalId);
    }
    if i :| IsLast(writes, i) && IsFor(RowOf(writes[i]), SALLA, externalId) && writes[i].payload.status != Hidden {
      var row := RowOf(writes[i]);
      UpsertedAllRows(rows, writes, row);
      assert Written(writes, row);
      var j :| 0 <= j < |upserted| && upserted[j] == row;
      assert after[j] == row;
    }
  }

  /** Throughout the run the tracked usage bounds the slots in use. */
  lemma {:induction false} UsageBoundsSlots(rows: seq<Product>, writes: seq<Write>)
    ensures Total(UpsertedAll(rows, writes), VisibleSlots) <= Total(rows, VisibleSlots) + SlotsOf(Payloads(writes))
  {
    if writes != [] {
      var n := |writes| - 1;
      UsageBoundsSlots(rows, writes[..n]);
      UpsertAddsAtMost(UpsertedAll(rows, writes[..n]), writes[n], VisibleSlots);
      PayloadsSplit(writes);
    }
  }

  lemma PayloadsSplit(writes: seq<Write>)
    requires writes != []
    ensures var n := |writes| - 1;
      SlotsOf(Payloads(writes)) == SlotsOf(Payloads(writes[..n])) + PayloadSlots(writes[n].payload)
  {
    var n := |writes| - 1;
    SlotsOfConcat(Payloads(writes[..n]), [writes[n].payload]);
    assert SlotsOf([writes[n].payload]) == PayloadSlots(writes[n].payload);
  }

  lemma {:induction false} FreshSlotsAreWritten(rows: seq<Product>, writes: seq<Write>, syncStartedAt: int)
    requires forall i :: 0 <= i < |rows| && rows[i].platform == SALLA ==> rows[i].lastSyncedAt < syncStartedAt
    ensures Total(UpsertedAll(rows, writes), FreshSlots(SALLA, syncStartedAt)) <= SlotsOf(Payloads(writes))
  {
    if writes == [] {
      NoFreshRows(rows, syncStartedAt);
    } else {
      var n := |writes| - 1;
      FreshSlotsAreWritten(rows, writes[..n], syncStartedAt);
      UpsertAddsAtMost(UpsertedAll(rows, writes[..n]), writes[n], FreshSlots(SALLA, syncStartedAt));
      PayloadsSplit(writes);
    }
  }

  lemma {:induction false} NoFreshRows(rows: seq<Product>, syncStartedAt: int)
    requires forall i :: 0 <= i < |rows| && rows[i].platform == SALLA ==> rows[i].lastSyncedAt < syncStartedAt
    ensures Total(rows, FreshSlots(SALLA, syncStartedAt)) == 0
  {
    if rows != [] {
      NoFreshRows(rows[..|rows| - 1], syncStartedAt);
    }
  }

  /** Under a limited plan the visible Salla slots after a finished sync stay within the limit, whatever the usage was
      before. */
  lemma SyncedSlotsWithinLimit(
    rows: seq<Product>, writes: seq<Write>, syncStartedAt: int, items: seq<Item>, limit: int, startUsage: nat)
    requires limit >= 0 && Payloads(writes) == Greedy(items, limit, startUsage)
    requires forall i :: 0 <= i < |rows| && rows[i].platform == SALLA ==> rows[i].lastSyncedAt < syncStartedAt
    ensures Total(StaleHidden(UpsertedAll(rows, writes), SALLA, syncStartedAt), PlatformSlots(SALLA)) <= limit
  {
    HidingLeavesFresh(UpsertedAll(rows, writes), SALLA, syncStartedAt);
    FreshSlotsAreWritten(rows, writes, syncStartedAt);
    GreedyFits(items, limit, startUsage);
  }
}
