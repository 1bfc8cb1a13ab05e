/** Product search for the chat: the index row of a product, and the cards shown for the hits.

    The search engine's answer is a parameter: some index rows, each meeting the filter conditions. */
module ProductSearch {
  import opened Options
  import opened Catalogue
  import opened VariantChoice

  /** A stored product with what searching reads. */
  datatype StoredProduct = StoredProduct(
    id: nat, storeId: string, externalId: string, category: Option<string>, categories: seq<string>, status: Status,
    priceAmount: real, regularPriceAmount: Option<real>, isUnlimitedStock: bool, stockQuantity: int,
    hasVariants: bool, variants: seq<Variant>)

  /** A row of the search index; no `minPrice` means the minimum over no variants, which meets no price condition. */
  datatype IndexRow = IndexRow(
    id: nat, storeId: string, category: Option<string>, categories: seq<string>, status: Status,
    minPrice: Option<real>)

  datatype SearchFilters = SearchFilters(
    category: Option<string>, maxPrice: Option<real>, optionFilter: Option<string>)

  datatype Card = Card(
    originalExternalId: string, variantId: string, priceAmount: real, regularPriceAmount: Option<real>,
    isAvailable: bool)

  predicate NotHidden(variant: Variant) {
    variant.status != Hidden
  }

  predicate IsPlain(product: StoredProduct) {
    !product.hasVariants || product.variants == []
  }

  /** The variants that may be shown. */
  function ActiveVariants(product: StoredProduct): seq<Variant> {
    Where(product.variants, NotHidden)
  }

  // ---- The index row ----

  function LowestPrice(variants: seq<Variant>): (lowest: Option<real>)
    ensures lowest.None? <==> variants == []
    ensures lowest.Some? ==> forall v :: v in variants ==> lowest.value <= v.priceAmount
    ensures lowest.Some? ==> exists v :: v in variants && v.priceAmount == lowest.value
  {
    if variants == [] then None
    else
      var n := |variants| - 1;
      var price := variants[n].priceAmount;
      match LowestPrice(variants[..n])
      case None => assert variants[n] in variants; Some(price)
      case Some(lowest) =>
        assert variants == variants[..n] + [variants[n]];
        assert variants[n] in variants;
        Some(if price < lowest then price else lowest)
  }

  function MinPrice(product: StoredProduct): Option<real> {
    if IsPlain(product) then Some(product.priceAmount) else LowestPrice(ActiveVariants(product))
  }

  function IndexRowOf(product: StoredProduct): IndexRow {
    IndexRow(product.id, product.storeId, product.category, product.categories, product.status, MinPrice(product))
  }

  /** The conditions sent to the search engine. */
  predicate Meets(row: IndexRow, storeId: string, filters: SearchFilters) {
    && row.storeId == storeId
    && row.status != Hidden
    && (filters.category in {None, Some("")} || row.category == filters.category
        || filters.category.value in row.categories)
    && (filters.maxPrice.None? || (row.minPrice.Some? && row.minPrice.value <= filters.maxPrice.value))
  }

  // ---- Cards ----

  /** A regular price is shown when it is set and above the current one. */
  function ShownRegularPrice(regularPriceAmount: Option<real>, priceAmount: real): Option<real> {
    match regularPriceAmount
    case Some(regular) => if regular != 0.0 && regular > priceAmount then Some(regular) else None
    case None => None
  }

  function ToStandardProductCard(p: StoredProduct): Card {
    Card(p.externalId, p.externalId, p.priceAmount, ShownRegularPrice(p.regularPriceAmount, p.priceAmount),
         IsAvailable(p.status, p.isUnlimitedStock, p.stockQuantity))
  }

  function ToVariantProductCard(p: StoredProduct, v: Variant): Card {
    Card(p.externalId, v.externalId, v.priceAmount, ShownRegularPrice(v.regularPriceAmount, v.priceAmount), InStock(v))
  }

  /** What a card says: a plain product's of the product, a variant's of the variant; a regular price only when it is
      set and above the price; available when so marked and in unlimited stock or some. */
  lemma CardsSay(p: StoredProduct, v: Variant)
    ensures var card := ToStandardProductCard(p);
      && card.originalExternalId == card.variantId == p.externalId && card.priceAmount == p.priceAmount
      && (card.isAvailable <==> p.status == Available && (p.isUnlimitedStock || p.stockQuantity > 0))
      && (forall r :: card.regularPriceAmount == Some(r) <==>
            p.regularPriceAmount == Some(r) && r != 0.0 && r > p.priceAmount)
    ensures var card := ToVariantProductCard(p, v);
      && card.originalExternalId == p.externalId && card.variantId == v.externalId && card.priceAmount == v.priceAmount
      && (card.isAvailable <==> v.status == Available && (v.isUnlimitedStock || v.stockQuantity > 0))
      && (forall r :: card.regularPriceAmount == Some(r) <==>
            v.regularPriceAmount == Some(r) && r != 0.0 && r > v.priceAmount)
  {
  }

  function WishOf(filters: SearchFilters, lower: Lower): Wish {
    Wish(filters.maxPrice, Tokens(filters.optionFilter, lower))
  }

  /** The card of a product, if it has one. */
  function CardOf(product: StoredProduct, filters: SearchFilters, lower: Lower): Option<Card> {
    if IsPlain(product) then Some(ToStandardProductCard(product))
    else if ActiveVariants(product) == [] then None
    else Some(ToVariantProductCard(product, Best(ActiveVariants(product), WishOf(filters, lower), lower)))
  }

  /** A card fits the budget exactly when the product's indexed minimum does. */
  lemma CardWithinBudgetExactly(product: StoredProduct, filters: SearchFilters, lower: Lower)
    requires filters.maxPrice.Some?
    ensures var fits := MinPrice(product).Some? && MinPrice(product).value <= filters.maxPrice.value;
      var card := CardOf(product, filters, lower);
      fits <==> card.Some? && card.value.priceAmount <= filters.maxPrice.value
  {
    var active := ActiveVariants(product);
    if !IsPlain(product) && active != [] {
      var wish := WishOf(filters, lower);
      var best := BestIndex(active, wish, lower);
      BestIsEarliest(active, wish, lower);
      var cheapest :| cheapest in active && cheapest.priceAmount == LowestPrice(active).value;
      var j :| 0 <= j < |active| && active[j] == cheapest;
      assert !Better(active[j], active[best], wish, lower);
      assert active[best] in active;
    }
  }

  // ---- The search ----

  ghost predicate UniqueIds(products: seq<StoredProduct>) {
    forall i, j :: 0 <= i < j < |products| ==> products[i].id != products[j].id
  }

  function Found(products: seq<StoredProduct>, storeId: string, id: nat): (found: Option<StoredProduct>)
    ensures found.Some? ==> found.value in products && found.value.id == id && found.value.storeId == storeId
    ensures found.None? ==> forall p :: p in products && p.id == id ==> p.storeId != storeId
  {
    if products == [] then None
    else if products[0].id == id && products[0].storeId == storeId then Some(products[0])
    else
      assert products == [products[0]] + products[1..];
      Found(products[1..], storeId, id)
  }

  /** The card a hit leads to. */
  function CardForHit(
    products: seq<StoredProduct>, storeId: string, hit: IndexRow, filters: SearchFilters, lower: Lower): Option<Card>
  {
    match Found(products, storeId, hit.id)
    case None => None
    case Some(product) => CardOf(product, filters, lower)
  }

  /** Which of the first `n` hits lead to a card. */
  function Origins(
    products: seq<StoredProduct>, storeId: string, hits: seq<IndexRow>, filters: SearchFilters, lower: Lower, n: nat)
    : (origins: seq<nat>)
    requires n <= |hits|
    ensures forall i :: i in origins <==> 0 <= i < n && CardForHit(products, storeId, hits[i], filters, lower).Some?
    ensures forall k, l :: 0 <= k < l < |origins| ==> origins[k] < origins[l]
  {
    if n == 0 then []
    else
      var before := Origins(products, storeId, hits, filters, lower, n - 1);
      assert forall k :: 0 <= k < |before| ==> before[k] in before;
      if CardForHit(products, storeId, hits[n - 1], filters, lower).Some? then before + [n - 1] else before
  }

  /** One card per originating hit, in the order of the hits. */
  ghost predicate Follows(
    cards: seq<Card>, origins: seq<nat>, products: seq<StoredProduct>, storeId: string, hits: seq<IndexRow>,
    filters: SearchFilters, lower: Lower)
  {
    && |cards| == |origins|
    && forall k :: 0 <= k < |cards| ==>
      origins[k] < |hits| && CardForHit(products, storeId, hits[origins[k]], filters, lower) == Some(cards[k])
  }

  /** The products of the store among the ids, in whatever order the collection has. */
  method FindByIds(products: seq<StoredProduct>, storeId: string, hits: seq<IndexRow>)
    returns (found: seq<StoredProduct>)
    ensures forall h :: h in hits ==> Found(found, storeId, h.id) == Found(products, storeId, h.id)
  {
    found := [];
    for i := 0 to |products|
      invariant forall h :: h in hits ==> Found(found, storeId, h.id) == Found(products[..i], storeId, h.id)
    {
      var p := products[i];
      assert products[..i + 1] == products[..i] + [p];
      forall h | h in hits
        ensures Found(products[..i + 1], storeId, h.id)
             == if Found(products[..i], storeId, h.id).Some? then Found(products[..i], storeId, h.id)
                else if p.id == h.id && p.storeId == storeId then Some(p) else None
        ensures Found(found + [p], storeId, h.id)
             == if Found(found, storeId, h.id).Some? then Found(found, storeId, h.id)
                else if p.id == h.id && p.storeId == storeId then Some(p) else None
      {
        FoundOneMore(products[..i], p, storeId, h.id);
        FoundOneMore(found, p, storeId, h.id);
      }
      if p.storeId == storeId && exists k :: 0 <= k < |hits| && hits[k].id == p.id {
        found := found + [p];
      }
    }
    assert products[..|products|] == products;
  }

  lemma {:induction false} FoundOneMore(front: seq<StoredProduct>, last: StoredProduct, storeId: string, id: nat)
    ensures Found(front + [last], storeId, id)
         == if Found(front, storeId, id).Some? then Found(front, storeId, id)
            else if last.id == id && last.storeId == storeId then Some(last) else None
  {
    if front != [] {
      FoundOneMore(front[1..], last, storeId, id);
      assert (front + [last])[1..] == front[1..] + [last];
    } else {
      assert front + [last] == [last];
    }
  }

  method SearchForChat(
    products: seq<StoredProduct>, storeId: string, hits: seq<IndexRow>, filters: SearchFilters, lower: Lower)
    returns (cards: seq<Card>)
    ensures Follows(cards, Origins(products, storeId, hits, filters, lower, |hits|), products, storeId, hits, filters,
                    lower)
  {
    cards := [];
    var found := FindByIds(products, storeId, hits);
    for i := 0 to |hits|
      invariant Follows(cards, Origins(products, storeId, hits, filters, lower, i), products, storeId, hits, filters,
                        lower)
    {
      assert hits[i] in hits;
      var hitProduct := Found(found, storeId, hits[i].id);
      if hitProduct.None? {
        continue;
      }
      var product := hitProduct.value;
      if IsPlain(product) {
        cards := cards + [ToStandardProductCard(product)];
        continue;
      }
      var activeVariants := Filter(product.variants, NotHidden);
      var chosen := PickBestVariant(activeVariants, filters.optionFilter, filters.maxPrice, lower);
      if chosen.None? {
        continue;
      }
      cards := cards + [ToVariantProductCard(product, chosen.value)];
    }
  }

  /** The row is what indexing the stored product now would write. */
  predicate InSync(row: IndexRow, products: seq<StoredProduct>) {
    exists i :: 0 <= i < |products| && IndexRowOf(products[i]) == row
  }

  /** A card of this product: the product itself when it is plain, otherwise one of its variants that is not hidden. */
  ghost predicate IsCardOf(card: Card, product: StoredProduct) {
    if IsPlain(product) then card == ToStandardProductCard(product)
    else exists v :: v in product.variants && v.status != Hidden && card == ToVariantProductCard(product, v)
  }

  ghost predicate Respects(card: Card, products: seq<StoredProduct>, storeId: string, filters: SearchFilters) {
    && (filters.maxPrice.Some? ==> card.priceAmount <= filters.maxPrice.value)
    && exists p :: p in products && p.storeId == storeId && p.status != Hidden && IsCardOf(card, p)
  }

  /** With the index rows in sync, every card shown fits the budget and shows a visible product or variant; and a hit
      has no card only when no budget was given and all variants are hidden. */
  lemma SearchRespectsBudget(
    products: seq<StoredProduct>, storeId: string, hits: seq<IndexRow>, filters: SearchFilters, lower: Lower,
    cards: seq<Card>)
    requires UniqueIds(products)
    requires forall h :: h in hits ==> InSync(h, products) && Meets(h, storeId, filters)
    requires Follows(cards, Origins(products, storeId, hits, filters, lower, |hits|), products, storeId, hits, filters,
                     lower)
    ensures forall k :: 0 <= k < |cards| ==> Respects(cards[k], products, storeId, filters)
    ensures filters.maxPrice.Some? ==> |cards| == |hits|
  {
    var origins := Origins(products, storeId, hits, filters, lower, |hits|);
    forall k | 0 <= k < |cards|
      ensures Respects(cards[k], products, storeId, filters)
    {
      var hit := hits[origins[k]];
      assert hit in hits;
      HitIsRespected(products, storeId, hit, filters, lower);
    }
    if filters.maxPrice.Some? {
      forall i | 0 <= i < |hits|
        ensures CardForHit(products, storeId, hits[i], filters, lower).Some?
      {
        assert hits[i] in hits;
        HitIsRespected(products, storeId, hits[i], filters, lower);
      }
      AllOriginate(products, storeId, hits, filters, lower, |hits|);
    }
  }

  lemma {:induction false} AllOriginate(
    products: seq<StoredProduct>, storeId: string, hits: seq<IndexRow>, filters: SearchFilters, lower: Lower, n: nat)
    requires n <= |hits|
    requires forall i :: 0 <= i < n ==> CardForHit(products, storeId, hits[i], filters, lower).Some?
    ensures |Origins(products, storeId, hits, filters, lower, n)| == n
  {
    if n > 0 {
      AllOriginate(products, storeId, hits, filters, lower, n - 1);
    }
  }

  /** A stored product is what its id finds. */
  lemma FoundByItsId(products: seq<StoredProduct>, i: nat)
    requires UniqueIds(products) && i < |products|
    ensures Found(products, products[i].storeId, products[i].id) == Some(products[i])
  {
    var found := Found(products, products[i].storeId, products[i].id);
    assert products[i] in products;
    var j :| 0 <= j < |products| && products[j] == found.value;
    assert i == j;
  }

  lemma CardRespects(products: seq<StoredProduct>, product: StoredProduct, filters: SearchFilters, lower: Lower)
    requires product in products && Meets(IndexRowOf(product), product.storeId, filters)
    ensures var card := CardOf(product, filters, lower);
      && (card.Some? ==> Respects(card.value, products, product.storeId, filters))
      && (filters.maxPrice.Some? ==> card.Some?)
  {
    if filters.maxPrice.Some? {
      CardWithinBudgetExactly(product, filters, lower);
    }
    if CardOf(product, filters, lower).Some? {
      CardIsOfProduct(product, filters, lower);
    }
  }

  lemma CardIsOfProduct(product: StoredProduct, filters: SearchFilters, lower: Lower)
    requires CardOf(product, filters, lower).Some?
    ensures IsCardOf(CardOf(product, filters, lower).value, product)
  {
    var active := ActiveVariants(product);
    if !IsPlain(product) {
      var best := Best(active, WishOf(filters, lower), lower);
      assert best in active;
      assert best in product.variants && best.status != Hidden;
    }
  }

  lemma HitIsRespected(
    products: seq<StoredProduct>, storeId: string, hit: IndexRow, filters: SearchFilters, lower: Lower)
    requires UniqueIds(products) && InSync(hit, products) && Meets(hit, storeId, filters)
    ensures var card := CardForHit(products, storeId, hit, filters, lower);
      && (card.Some? ==> Respects(card.value, products, storeId, filters))
      && (filters.maxPrice.Some? ==> card.Some?)
  {
    var i :| 0 <= i < |products| && IndexRowOf(products[i]) == hit;
    FoundByItsId(products, i);
    CardRespects(products, products[i], filters, lower);
  }

  // ---- Hiding leaves the index behind ----

  /** The collection after some of its products were hidden. */
  ghost predicate SomeHidden(before: seq<StoredProduct>, after: seq<StoredProduct>) {
    && |after| == |before|
    && forall i :: 0 <= i < |before| ==> after[i] == before[i] || after[i] == before[i].(status := Hidden)
  }

  /** A hit brings up a visible product. */
  ghost predicate ShowsVisible(products: seq<StoredProduct>, storeId: string, hit: IndexRow) {
    var found := Found(products, storeId, hit.id);
    found.Some? && found.value.status != Hidden
  }

  lemma HidingKeepsPrice(product: StoredProduct, filters: SearchFilters, lower: Lower)
    ensures var was, now := CardOf(product, filters, lower), CardOf(product.(status := Hidden), filters, lower);
      (was.None? <==> now.None?) && (was.Some? ==> was.value.priceAmount == now.value.priceAmount)
  {
    assert ActiveVariants(product.(status := Hidden)) == ActiveVariants(product);
  }

  lemma InSyncOnlyAsItself(products: seq<StoredProduct>, i: nat, hit: IndexRow)
    requires UniqueIds(products) && i < |products| && products[i].id == hit.id
    ensures InSync(hit, products) <==> IndexRowOf(products[i]) == hit
  {
    if InSync(hit, products) {
      var m :| 0 <= m < |products| && IndexRowOf(products[m]) == hit;
      assert m == i;
    }
  }

  /** For a plain product or one with variants: a row that was in sync and met the filters still brings up its product,
      at the same price, after any products were hidden; and what it brings up is visible exactly when the row is still
      in sync, that is when the product was not among the hidden. */
  lemma HitsAfterHidingExactly(
    before: seq<StoredProduct>, after: seq<StoredProduct>, storeId: string, hit: IndexRow, filters: SearchFilters,
    lower: Lower)
    requires UniqueIds(before) && SomeHidden(before, after)
    requires InSync(hit, before) && Meets(hit, storeId, filters)
    ensures var was, now := CardForHit(before, storeId, hit, filters, lower),
                            CardForHit(after, storeId, hit, filters, lower);
      (was.None? <==> now.None?) && (was.Some? ==> was.value.priceAmount == now.value.priceAmount)
    ensures ShowsVisible(after, storeId, hit) <==> InSync(hit, after)
  {
    var i :| 0 <= i < |before| && IndexRowOf(before[i]) == hit;
    assert UniqueIds(after);
    FoundByItsId(before, i);
    FoundByItsId(after, i);
    HidingKeepsPrice(before[i], filters, lower);
    InSyncOnlyAsItself(after, i, hit);
  }
}
