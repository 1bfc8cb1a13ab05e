/** The product collection of one store: upserts, hiding, and slot counting. */
module Catalogue {

  datatype Status = Available | OutOfStock | Hidden

  /** A product row; the fields that no rule here reads are left out. */
  datatype Product = Product(
    platform: string, externalId: string, status: Status, hasVariants: bool, variantCount: nat, lastSyncedAt: int)

  datatype Payload = Payload(
    platform: string, externalId: string, status: Status, hasVariants: bool, variantCount: nat)

  /** An upsert with the time it was written. */
  datatype Write = Write(payload: Payload, at: int)

  function Slots(hasVariants: bool, variantCount: nat): (slots: nat)
    ensures slots >= 1
  {
    if hasVariants && variantCount > 0 then variantCount else 1
  }

  function PayloadSlots(payload: Payload): nat {
    Slots(payload.hasVariants, payload.variantCount)
  }

  function RowOf(write: Write): Product {
    var p := write.payload;
    Product(p.platform, p.externalId, p.status, p.hasVariants, p.variantCount, write.at)
  }

  /** A written row is the payload, stamped. */
  lemma RowKeepsPayload(write: Write)
    ensures var row, p := RowOf(write), write.payload;
      && row.platform == p.platform && row.externalId == p.externalId && row.status == p.status
      && row.hasVariants == p.hasVariants && row.variantCount == p.variantCount && row.lastSyncedAt == write.at
  {
  }

  predicate IsFor(row: Product, platform: string, externalId: string) {
    row.platform == platform && row.externalId == externalId
  }

  /** The unique index on platform and external id. */
  ghost predicate Unique(rows: seq<Product>) {
    forall i, j :: 0 <= i < j < |rows| ==> !IsFor(rows[i], rows[j].platform, rows[j].externalId)
  }

  function Upserted(rows: seq<Product>, write: Write): seq<Product> {
    if rows == [] then [RowOf(write)]
    else
      var n := |rows| - 1;
      if IsFor(rows[n], write.payload.platform, write.payload.externalId) then rows[..n] + [RowOf(write)]
      else Upserted(rows[..n], write) + [rows[n]]
  }

  function UpsertedAll(rows: seq<Product>, writes: seq<Write>): seq<Product> {
    if writes == [] then rows
    else Upserted(UpsertedAll(rows, writes[..|writes| - 1]), writes[|writes| - 1])
  }

  /** What the hiding update matches. */
  predicate IsStale(row: Product, platform: string, cutoff: int) {
    row.platform == platform && row.lastSyncedAt < cutoff && row.status != Hidden
  }

  function HiddenIfStale(row: Product, platform: string, cutoff: int): Product {
    if IsStale(row, platform, cutoff) then row.(status := Hidden) else row
  }

  function StaleHidden(rows: seq<Product>, platform: string, cutoff: int): seq<Product> {
    seq(|rows|, i requires 0 <= i < |rows| => HiddenIfStale(rows[i], platform, cutoff))
  }

  /** The sum of `f` over the rows. */
  function Total(rows: seq<Product>, f: Product -> nat): nat {
    if rows == [] then 0 else Total(rows[..|rows| - 1], f) + f(rows[|rows| - 1])
  }

  /** Counts the stale rows, as a summand for `Total`. */
  function StaleRow(platform: string, cutoff: int): Product -> nat {
    (row: Product) => if IsStale(row, platform, cutoff) then 1 else 0
  }

  function VisibleSlots(row: Product): nat {
    if row.status != Hidden then Slots(row.hasVariants, row.variantCount) else 0
  }

  // ---- Facts about upserts ----

  /** A row, and only that row, is there for a written product; the others are untouched. */
  lemma {:induction false} UpsertedRows(rows: seq<Product>, write: Write, row: Product)
    requires Unique(rows)
    ensures Unique(Upserted(rows, write))
    ensures row in Upserted(rows, write) <==>
      row == RowOf(write) || (row in rows && !IsFor(row, write.payload.platform, write.payload.externalId))
  {
    if rows != [] {
      var n := |rows| - 1;
      var p := write.payload;
      assert rows == rows[..n] + [rows[n]];
      if IsFor(rows[n], p.platform, p.externalId) {
        assert forall i :: 0 <= i < n ==> !IsFor(rows[i], p.platform, p.externalId);
      } else {
        var front := Upserted(rows[..n], write);
        UpsertedRows(rows[..n], write, row);
        forall i | 0 <= i < |front|
          ensures !IsFor(front[i], rows[n].platform, rows[n].externalId)
        {
          UpsertedRows(rows[..n], write, front[i]);
          assert front[i] in front;
        }
      }
    }
  }

  lemma {:induction false} UpsertAddsAtMost(rows: seq<Product>, write: Write, f: Product -> nat)
    ensures Total(Upserted(rows, write), f) <= Total(rows, f) + f(RowOf(write))
  {
    var after := Upserted(rows, write);
    if rows == [] {
      assert after[..0] == [];
    } else {
      var n := |rows| - 1;
      if IsFor(rows[n], write.payload.platform, write.payload.externalId) {
        assert after[..|after| - 1] == rows[..n];
      } else {
        UpsertAddsAtMost(rows[..n], write, f);
        assert after[..|after| - 1] == Upserted(rows[..n], write);
      }
    }
  }

  lemma {:induction false} UpsertsConcat(rows: seq<Product>, a: seq<Write>, b: seq<Write>)
    ensures UpsertedAll(rows, a + b) == UpsertedAll(UpsertedAll(rows, a), b)
  {
    if b == [] {
      assert a + b == a;
    } else {
      UpsertsConcat(rows, a, b[..|b| - 1]);
      assert (a + b)[..|a + b| - 1] == a + b[..|b| - 1];
    }
  }

  /** `write` is the last one for its product. */
  ghost predicate IsLast(writes: seq<Write>, i: int) {
    && 0 <= i < |writes|
    && forall j :: i < j < |writes| ==>
      !IsFor(RowOf(writes[j]), writes[i].payload.platform, writes[i].payload.externalId)
  }

  ghost predicate Written(writes: seq<Write>, row: Product) {
    exists i :: IsLast(writes, i) && row == RowOf(writes[i])
  }

  ghost predicate Touched(writes: seq<Write>, row: Product) {
    exists j :: 0 <= j < |writes| && IsFor(row, writes[j].payload.platform, writes[j].payload.externalId)
  }

  lemma WrittenOneMore(front: seq<Write>, last: Write, row: Product)
    ensures Written(front + [last], row) <==>
      row == RowOf(last) || (Written(front, row) && !IsFor(row, last.payload.platform, last.payload.externalId))
  {
    var writes := front + [last];
    assert IsLast(writes, |front|) && writes[|front|] == last;
    assert forall j :: 0 <= j < |front| ==> front[j] == writes[j];
    if i :| IsLast(writes, i) && row == RowOf(writes[i]) && i < |front| {
      assert IsLast(front, i) && front[i] == writes[i];
      assert writes[|front|] == last;
    }
    if i :| IsLast(front, i) && row == RowOf(front[i])
            && !IsFor(row, last.payload.platform, last.payload.externalId) {
      assert IsLast(writes, i);
    }
  }

  lemma TouchedOneMore(front: seq<Write>, last: Write, row: Product)
    ensures Touched(front + [last], row) <==>
      Touched(front, row) || IsFor(row, last.payload.platform, last.payload.externalId)
  {
    var writes := front + [last];
    assert writes[|front|] == last;
    if j :| 0 <= j < |front| && IsFor(row, front[j].payload.platform, front[j].payload.externalId) {
      assert writes[j] == front[j];
    }
  }

  /** After a series of upserts: the last write of each written product, and the rows nothing was written for. */
  lemma {:induction false} UpsertedAllRows(rows: seq<Product>, writes: seq<Write>, row: Product)
    requires Unique(rows)
    ensures Unique(UpsertedAll(rows, writes))
    ensures row in UpsertedAll(rows, writes) <==> Written(writes, row) || (row in rows && !Touched(writes, row))
  {
    if writes != [] {
      var n := |writes| - 1;
      var front, last := writes[..n], writes[n];
      assert writes == front + [last];
      UpsertedAllRows(rows, front, row);
      UpsertedRows(UpsertedAll(rows, front), last, row);
      WrittenOneMore(front, last, row);
      TouchedOneMore(front, last, row);
    }
  }

  /** Visible slots of one platform. */
  function PlatformSlots(platform: string): Product -> nat {
    (row: Product) => if row.platform == platform then VisibleSlots(row) else 0
  }

  /** Those of rows written at or after `cutoff`. */
  function FreshSlots(platform: string, cutoff: int): Product -> nat {
    (row: Product) => if row.platform == platform && row.lastSyncedAt >= cutoff then VisibleSlots(row) else 0
  }

  /** Hiding the stale rows leaves a platform exactly its fresh slots. */
  lemma {:induction false} HidingLeavesFresh(rows: seq<Product>, platform: string, cutoff: int)
    ensures Total(StaleHidden(rows, platform, cutoff), PlatformSlots(platform))
         == Total(rows, FreshSlots(platform, cutoff))
  {
    if rows != [] {
      var n := |rows| - 1;
      HidingLeavesFresh(rows[..n], platform, cutoff);
      assert StaleHidden(rows, platform, cutoff)[..n] == StaleHidden(rows[..n], platform, cutoff);
    }
  }

  /** The slots of the visible products: row `i` has one for each variant, or one. */
  ghost function SlotsInUse(rows: seq<Product>): set<(int, int)> {
    set i, v | 0 <= i < |rows| && rows[i].status != Hidden
               && 0 <= v < (if rows[i].hasVariants && rows[i].variantCount > 0 then rows[i].variantCount else 1)
               :: (i, v)
  }

  ghost function SlotsAt(i: int, count: nat): set<(int, int)> {
    set v | 0 <= v < count :: (i, v)
  }

  lemma {:induction false} SlotsAtCounts(i: int, count: nat)
    ensures |SlotsAt(i, count)| == count
  {
    if count > 0 {
      SlotsAtCounts(i, count - 1);
      assert SlotsAt(i, count) == SlotsAt(i, count - 1) + {(i, count - 1)};
    }
  }

  lemma {:induction false} TotalCountsSlots(rows: seq<Product>)
    ensures Total(rows, VisibleSlots) == |SlotsInUse(rows)|
  {
    if rows != [] {
      var n := |rows| - 1;
      var last := SlotsAt(n, VisibleSlots(rows[n]));
      TotalCountsSlots(rows[..n]);
      SlotsAtCounts(n, VisibleSlots(rows[n]));
      assert SlotsInUse(rows) == SlotsInUse(rows[..n]) + last;
      assert SlotsInUse(rows[..n]) !! last;
    }
  }

  // ---- The repository ----

  class ProductsRepository {
    var rows: seq<Product>

    constructor ()
      ensures rows == []
    {
      rows := [];
    }

    method BulkUpsert(payloads: seq<Payload>, syncedAt: int)
      modifies this
      ensures rows == UpsertedAll(old(rows), Writes(payloads, syncedAt))
    {
      for i := 0 to |payloads|
        invariant rows == UpsertedAll(old(rows), Writes(payloads[..i], syncedAt))
      {
        assert Writes(payloads[..i + 1], syncedAt)[..i] == Writes(payloads[..i], syncedAt);
        rows := Upserted(rows, Write(payloads[i], syncedAt));
      }
      assert payloads[..|payloads|] == payloads;
    }

    /** Hides what was not synced since `cutoff` and answers how many rows it changed. */
    method HideStaleSince(platform: string, cutoff: int) returns (modified: nat)
      modifies this
      ensures rows == StaleHidden(old(rows), platform, cutoff)
      ensures modified == Total(old(rows), StaleRow(platform, cutoff))
      // Only visible rows of the platform last synced before `cutoff` change, and only to hidden.
      ensures |rows| == |old(rows)|
      ensures forall i :: 0 <= i < |rows| ==>
        var row := old(rows)[i];
        rows[i] == if row.platform == platform && row.lastSyncedAt < cutoff then row.(status := Hidden) else row
    {
      modified := 0;
      var before := rows;
      for i := 0 to |before|
        invariant |rows| == |before|
        invariant forall j :: 0 <= j < i ==> rows[j] == HiddenIfStale(before[j], platform, cutoff)
        invariant forall j :: i <= j < |before| ==> rows[j] == before[j]
        invariant modified == Total(before[..i], StaleRow(platform, cutoff))
      {
        var row := before[i];
        assert before[..i + 1][..i] == before[..i];
        if IsStale(row, platform, cutoff) {
          modified := modified + 1;
          rows := rows[i := row.(status := Hidden)];
        }
      }
      assert before[..|before|] == before;
    }

    /** One slot for each variant of a visible product, and one for a visible product without. */
    method CountStoreProductsAndVariants() returns (total: nat)
      ensures total == Total(rows, VisibleSlots)
      ensures total == |SlotsInUse(rows)|
    {
      TotalCountsSlots(rows);
      total := 0;
      for i := 0 to |rows|
        invariant total == Total(rows[..i], VisibleSlots)
      {
        assert rows[..i + 1][..i] == rows[..i];
        total := total + VisibleSlots(rows[i]);
      }
      assert rows[..|rows|] == rows;
    }
  }

  function Writes(payloads: seq<Payload>, at: int): seq<Write> {
    seq(|payloads|, i requires 0 <= i < |payloads| => Write(payloads[i], at))
  }
}
